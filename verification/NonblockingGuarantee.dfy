/** Exactly when leaving a barrier means that a nonblocking put issued before it is complete. */
module NonblockingGuarantee {
  import opened Wrappers
  import opened Delivery
  import opened Conservation
  import opened Barrier
  import opened Completion
  import opened Progress
  import opened Guarantee
  import opened Nonblocking

  /** The i-th nonblocking put of a, which is for b, has reached b's memory. */
  ghost predicate Reached(st: State, a: nat, b: nat, i: nat)
    requires a < |st| && b < |st| && i < |st[a].issued| && st[a].issued[i].Issued?
  {
    && i < |st[a].ran| && a < |st[b].got| && st[a].ran[i] < |st[b].got[a]|
    && var put := st[b].got[a][st[a].ran[i]];
    put.Data? && put.offset == st[a].issued[i].offset && |put.bytes| == st[a].issued[i].count
  }

  /** Every nonblocking put that a issued for b before its own call k has reached b's memory. */
  ghost predicate AllReached(st: State, a: nat, b: nat, k: nat)
  {
    && a < |st| && b < |st| && k < |st[a].marks| && st[a].marks[k] <= |st[a].issued|
    && forall i :: 0 <= i < st[a].marks[k] && st[a].issued[i].Issued? && st[a].issued[i].dest == b ==>
         Reached(st, a, b, i)
  }

  /** In every run, when b has left a barrier call, the nonblocking puts that a issued for it
      before the same call are complete. */
  ghost predicate NbiGuaranteed(cfg: Config, a: nat, b: nat)
  {
    forall acts: seq<Action>, st: State, k: nat ::
      Runs(cfg, Init(cfg), acts, st) && b < |st| && k < Left(st[b]) ==> AllReached(st, a, b, k)
  }

  // ---- Where the barrier does complete them ----

  lemma Reachable(cfg: Config, acts: seq<Action>, st: State)
    requires cfg.N() > 0 && Runs(cfg, Init(cfg), acts, st)
    ensures NbiInv(cfg, st) && Inv(cfg, st) && |st| == cfg.N()
  {
    InitNbiInv(cfg);
    NbiRunKeeps(cfg, Init(cfg), acts, st);
  }

  /** A PE on another host than PE 0 has, when it leaves a barrier call, handed over every
      nonblocking put it issued before the call, whomever it is for. */
  lemma HandedWhenLeft(cfg: Config, acts: seq<Action>, st: State, p: nat, k: nat, i: nat)
    requires cfg.N() > 0 && Runs(cfg, Init(cfg), acts, st) && p < |st| && k < Left(st[p])
    requires p < cfg.N() && cfg.pl.Remote(0, p)
    ensures k < |st[p].marks|
    ensures i < st[p].marks[k] ==> i < |st[p].ran| <= |st[p].issued| && RanOk(st[p], i)
  {
    Reachable(cfg, acts, st);
    assert NbiGood(cfg, p, st[p]);
    LeftCallRan(cfg, st, p);
  }

  /** So its nonblocking puts to itself are complete. */
  lemma OwnReached(cfg: Config, acts: seq<Action>, st: State, p: nat, k: nat)
    requires cfg.N() > 0 && Runs(cfg, Init(cfg), acts, st) && p < |st| && k < Left(st[p])
    requires p < cfg.N() && cfg.pl.Remote(0, p)
    ensures AllReached(st, p, p, k)
  {
    Reachable(cfg, acts, st);
    assert NbiGood(cfg, p, st[p]) && Flow(cfg, p, p, st[p], st[p]) && PeShaped(cfg, st[p]);
    LeftCallRan(cfg, st, p);
    forall i | 0 <= i < st[p].marks[k] && st[p].issued[i].Issued? && st[p].issued[i].dest == p
      ensures Reached(st, p, p, i)
    {
      assert RanOk(st[p], i);
    }
  }

  /** And one barrier call later the barrier completes the others as it completes blocking puts:
      for the pairs it covers. */
  lemma ReachedOneCallLater(cfg: Config, acts: seq<Action>, st: State, a: nat, b: nat, k: nat)
    requires cfg.N() > 0 && Runs(cfg, Init(cfg), acts, st) && |st| == cfg.N() && a < cfg.N() && b < cfg.N()
    requires cfg.pl.Remote(0, a) && Covered(cfg, a, b) && k + 1 < Left(st[b])
    ensures AllReached(st, a, b, k)
  {
    Reachable(cfg, acts, st);
    assert NbiGood(cfg, a, st[a]) && PeShaped(cfg, st[a]);
    DataBeforeBarrier(cfg, st, a, b, k + 1);
    CountersClose(cfg, st, b, a);
    assert PeOk(cfg.N(), a, st[a]);
    GotIsPrefix(cfg, st, a, b);
    hide Inv, NbiInv, PeOk;
    forall i | 0 <= i < st[a].marks[k] && st[a].issued[i].Issued? && st[a].issued[i].dest == b
      ensures Reached(st, a, b, i)
    {
      assert DeferredAt(st[a], k, i) && RanOk(st[a], i);
    }
  }

  // ---- Where it does not: a run that leaves the job in the queue ----

  /** What only the user of a PE changes, and the worker when it runs one of its nonblocking puts. */
  predicate SameHistory(pe: Pe, pe': Pe)
  {
    pe'.issued == pe.issued && pe'.ran == pe.ran && pe'.marks == pe.marks && pe'.entered == pe.entered
  }

  lemma CommPutHistory(cfg: Config, st: State, p: nat, dest: nat, put: Put, q: nat)
    requires Shaped(cfg, st) && p < |st| && dest < |st| && PutShaped(cfg, put) && q < |st|
    ensures |CommPut(cfg, st, p, dest, put)| == |st| && SameHistory(st[q], CommPut(cfg, st, p, dest, put)[q])
  {}

  lemma WorkerHistory(cfg: Config, st: State, act: Action, q: nat)
    requires Shaped(cfg, st) && Can(cfg, st, act) && q < |st| && (act.Work? || (act.WorkNbi? && act.p != q))
    ensures |Do(cfg, st, act)| == |st| && SameHistory(st[q], Do(cfg, st, act)[q])
  {
    var job := st[act.p].workQ[0];
    assert PeShaped(cfg, st[act.p]) && JobShaped(cfg, job);
    if act.WorkNbi? {
      var st1 := st[act.p := NbiTaken(st[act.p])];
      assert Shaped(cfg, st1);
      CommPutHistory(cfg, st1, act.p, job.dest, Data(job.offset, act.source), q);
    }
  }

  lemma QuietHistory(cfg: Config, st: State, act: Action, q: nat)
    requires Shaped(cfg, st) && Can(cfg, st, act) && q < |st|
    requires act.See? || act.Leave? || act.SeeNext? || act.Collect? || act.Turn? || act.Done? || act.Send? || act.Recv?
    ensures |Do(cfg, st, act)| == |st| && SameHistory(st[q], Do(cfg, st, act)[q])
  {}

  /** A step of the runtime other than running a nonblocking put of q leaves q's nonblocking puts
      as they are. */
  lemma HistoryStays(cfg: Config, st: State, act: Action, q: nat)
    requires Shaped(cfg, st) && Can(cfg, st, act) && Internal(act) && q < |st| && !(act.WorkNbi? && act.p == q)
    ensures |Do(cfg, st, act)| == |st| && SameHistory(st[q], Do(cfg, st, act)[q])
  {
    match act
    case Arrive(p) => CommPutHistory(cfg, st, p, 0, Flag(p), q);
    case Release => CommPutHistory(cfg, st, 0, st[0].ctl.next, Flag(st[0].ctl.next), q);
    case Work(p) => WorkerHistory(cfg, st, act, q);
    case WorkNbi(p, source) => WorkerHistory(cfg, st, act, q);
    case _ => QuietHistory(cfg, st, act, q);
  }

  /** What PE i sends to PE 0 in its current barrier call has reached PE 0, and no nonblocking
      put of i waits that could follow. */
  ghost predicate ArrivedAt(pe: Pe, root: Pe, i: nat)
  {
    && !pe.ctl.Arriving? && Pending(pe.workQ) == []
    && |pe.handed| > 0 && i < |root.got| && pe.handed[0] == root.got[i]
  }

  /** So it is for all PEs but PE 0: nothing is on its way to PE 0, and nothing will be before
      PE 0 releases them. */
  ghost predicate AllArrived(st: State)
  {
    forall i :: 0 < i < |st| ==> ArrivedAt(st[i], st[0], i)
  }

  lemma CommPutArrived(cfg: Config, st: State, p: nat, dest: nat, put: Put, i: nat)
    requires Shaped(cfg, st) && p < |st| && dest < |st| && PutShaped(cfg, put)
    requires 0 < i < |st| && p != i && ArrivedAt(st[i], st[0], i)
    ensures var st' := CommPut(cfg, st, p, dest, put); |st'| == |st| && ArrivedAt(st'[i], st'[0], i)
  {
    assert PeShaped(cfg, st[i]) && PeShaped(cfg, st[0]);
  }

  lemma SignalArrived(cfg: Config, st: State, p: nat, dest: nat, put: Put, ctl: Control, i: nat)
    requires Shaped(cfg, st) && p < |st| && dest < |st| && PutShaped(cfg, put)
    requires 0 < i < |st| && p != i && ArrivedAt(st[i], st[0], i)
    ensures var st' := WithControl(CommPut(cfg, st, p, dest, put), p, ctl);
            |st'| == |st| && ArrivedAt(st'[i], st'[0], i)
  {
    CommPutArrived(cfg, st, p, dest, put, i);
    hide CommPut;
  }

  lemma RecvArrived(cfg: Config, st: State, a: nat, b: nat, i: nat)
    requires Shaped(cfg, st) && Can(cfg, st, Recv(a, b)) && 0 < i < |st| && ArrivedAt(st[i], st[0], i)
    ensures var st' := Do(cfg, st, Recv(a, b)); |st'| == |st| && ArrivedAt(st'[i], st'[0], i)
  {
    PendingAppend(st[b].workQ, Received(a, st[a].wire[b][0]));
  }

  lemma WorkArrived(cfg: Config, st: State, act: Action, i: nat)
    requires Shaped(cfg, st) && Can(cfg, st, act) && (act.Work? || act.WorkNbi?) && act.p != 0
    requires 0 < i < |st| && ArrivedAt(st[i], st[0], i)
    ensures var st' := Do(cfg, st, act); |st'| == |st| && ArrivedAt(st'[i], st'[0], i)
  {
    var p := act.p;
    var job := st[p].workQ[0];
    assert PeShaped(cfg, st[p]) && JobShaped(cfg, job);
    if act.WorkNbi? {
      assert Pending(st[p].workQ) != [];
      var st1 := st[p := NbiTaken(st[p])];
      assert Shaped(cfg, st1);
      CommPutArrived(cfg, st1, p, job.dest, Data(job.offset, act.source), i);
    }
  }

  lemma QuietArrived(cfg: Config, st: State, act: Action, i: nat)
    requires Shaped(cfg, st) && Can(cfg, st, act) && 0 < i < |st| && ArrivedAt(st[i], st[0], i)
    requires act.See? || act.Leave? || act.SeeNext? || act.Collect? || act.Turn? || act.Done? || act.Send?
    ensures var st' := Do(cfg, st, act); |st'| == |st| && ArrivedAt(st'[i], st'[0], i)
  {}

  lemma ArrivedStays(cfg: Config, st: State, act: Action, i: nat)
    requires Shaped(cfg, st) && Can(cfg, st, act) && Internal(act) && !ByWorker(act, 0)
    requires 0 < i < |st| && ArrivedAt(st[i], st[0], i)
    ensures var st' := Do(cfg, st, act); |st'| == |st| && ArrivedAt(st'[i], st'[0], i)
  {
    match act
    case Arrive(p) => SignalArrived(cfg, st, p, 0, Flag(p), Waiting, i);
    case Release => SignalArrived(cfg, st, 0, st[0].ctl.next, Flag(st[0].ctl.next), Releasing(st[0].ctl.next + 1), i);
    case Recv(a, b) => RecvArrived(cfg, st, a, b, i);
    case Work(p) => WorkArrived(cfg, st, act, i);
    case WorkNbi(p, source) => WorkArrived(cfg, st, act, i);
    case _ => QuietArrived(cfg, st, act, i);
  }

  /** Then no packet waits for the worker of PE 0. */
  lemma NothingForRoot(cfg: Config, st: State)
    requires Inv(cfg, st) && AllArrived(st)
    ensures NothingReceived(st[0], |st|)
  {
    forall i | 0 <= i < |st| ensures FromOrigin(st[0].workQ, i) == [] {
      assert Flow(cfg, i, 0, st[i], st[0]);
      if i > 0 {
        assert ArrivedAt(st[i], st[0], i);
        RootReachable(cfg, i);
        NothingLeft(st[0].got[i], FromOrigin(st[0].workQ, i), st[i].wire[0], SendTo(st[i].sendQ, 0));
      }
    }
  }

  lemma NothingLeft(got: seq<Put>, jobs: seq<Put>, wire: seq<Put>, queued: seq<Put>)
    ensures got == got + (jobs + wire + queued) ==> jobs == []
  {
    if jobs != [] { assert |got + (jobs + wire + queued)| > |got|; }
  }

  // ---- Runs in which the worker of one PE sleeps ----

  /** Everybody has made the first barrier call, and the worker of w is not needed by others. */
  ghost predicate CanSleep(cfg: Config, st: State, w: nat)
  {
    && Inv(cfg, st) && w < cfg.N() && |st| == cfg.N()
    && (forall q :: 0 <= q < |st| ==> st[q].entered >= 1)
    && (w == 0 ==> AllArrived(st))
  }

  /** The PEs that leave without the worker of w: all but w itself if its release would have to
      come through that worker. */
  predicate Free(cfg: Config, w: nat, q: nat)
    requires w < cfg.N() && q < cfg.N()
  {
    q != w || cfg.Local(0, q)
  }

  lemma AllArrivedStays(cfg: Config, st: State, act: Action)
    requires Shaped(cfg, st) && Can(cfg, st, act) && Internal(act) && !ByWorker(act, 0) && AllArrived(st)
    ensures AllArrived(Do(cfg, st, act))
  {
    hide Do, Can, ArrivedAt, Internal;
    forall i | 0 < i < |Do(cfg, st, act)| ensures ArrivedAt(Do(cfg, st, act)[i], Do(cfg, st, act)[0], i) {
      HistoryStays(cfg, st, act, 0);
      ArrivedStays(cfg, st, act, i);
    }
  }

  lemma SleepKeeps(cfg: Config, st: State, act: Action, w: nat)
    requires CanSleep(cfg, st, w) && Can(cfg, st, act) && Internal(act) && !ByWorker(act, w)
    requires PeOk(cfg.N(), 0, st[0])
    ensures CanSleep(cfg, Do(cfg, st, act), w) && SameHistory(st[w], Do(cfg, st, act)[w])
    ensures 0 <= TotalLoad(cfg.N(), Do(cfg, st, act)) < TotalLoad(cfg.N(), st)
  {
    hide Inv, Do, Can, AllArrived, ArrivedAt, PeOk, Flows, Internal, TotalLoad;
    assert Shaped(cfg, st) by { InvNonempty(cfg, st); }
    StepKeeps(cfg, st, act);
    InternalDrops(cfg, st, act);
    LoadsNonNegative(cfg, Do(cfg, st, act));
    EnteredStays(cfg, st, act);
    HistoryStays(cfg, st, act, w);
    if w == 0 { AllArrivedStays(cfg, st, act); }
  }

  lemma SleepStep(cfg: Config, st: State, q: nat, w: nat) returns (act: Action)
    requires CanSleep(cfg, st, w) && q < cfg.N() && Free(cfg, w, q) && Left(st[q]) < 1
    ensures Can(cfg, st, act) && CanSleep(cfg, Do(cfg, st, act), w)
    ensures SameHistory(st[w], Do(cfg, st, act)[w])
    ensures 0 <= TotalLoad(cfg.N(), Do(cfg, st, act)) < TotalLoad(cfg.N(), st)
  {
    if w == 0 { NothingForRoot(cfg, st); }
    act := BarrierEnabled(cfg, st, 1, q, cfg.N(), cfg.N(), w);
    assert PeOk(cfg.N(), 0, st[0]);
    SleepKeeps(cfg, st, act, w);
  }

  /** Everybody who can leaves the first call while the worker of w sleeps. */
  lemma {:induction false} LeaveAsleep(cfg: Config, st: State, w: nat) returns (acts: seq<Action>, st': State)
    requires CanSleep(cfg, st, w)
    ensures Runs(cfg, st, acts, st') && |st'| == cfg.N() && SameHistory(st[w], st'[w])
    ensures forall q :: 0 <= q < cfg.N() && Free(cfg, w, q) ==> Left(st'[q]) >= 1
    decreases TotalLoad(cfg.N(), st)
  {
    if q :| 0 <= q < cfg.N() && Free(cfg, w, q) && Left(st[q]) < 1 {
      var act := SleepStep(cfg, st, q, w);
      var more: seq<Action>;
      more, st' := LeaveAsleep(cfg, Do(cfg, st, act), w);
      RunsCons(cfg, st, act, more, st');
      acts := [act] + more;
    } else {
      acts, st' := [], st;
    }
  }

  // ---- Before PE 0 makes its call, all arrivals can get through ----

  /** PE 0 has not made a barrier call, and no nonblocking put waits anywhere. */
  ghost predicate RootOut(st: State)
  {
    |st| > 0 && st[0].ctl.Out? && forall q :: 0 <= q < |st| ==> Pending(st[q].workQ) == []
  }

  /** What goes on before PE 0 makes its call. */
  predicate Drains(act: Action) { act.Arrive? || act.Send? || act.Recv? || act.Work? }

  lemma CommPutRootOut(cfg: Config, st: State, p: nat, dest: nat, put: Put, q: nat)
    requires Shaped(cfg, st) && p < |st| && dest < |st| && PutShaped(cfg, put) && q < |st|
    ensures var st' := CommPut(cfg, st, p, dest, put);
            |st'| == |st| && st'[q].ctl == st[q].ctl && st'[q].workQ == st[q].workQ
  {}

  lemma DrainKeepsAt(cfg: Config, st: State, act: Action, q: nat)
    requires Shaped(cfg, st) && Can(cfg, st, act) && RootOut(st) && q < |st|
    requires Drains(act)
    ensures var st' := Do(cfg, st, act);
            |st'| == |st| && Pending(st'[q].workQ) == [] && (q == 0 ==> st'[q].ctl == st[q].ctl)
  {
    match act
    case Arrive(p) => CommPutRootOut(cfg, st, p, 0, Flag(p), q);
    case Send(p) =>
    case Recv(a, b) => PendingAppend(st[b].workQ, Received(a, st[a].wire[b][0]));
    case Work(p) => assert PeShaped(cfg, st[p]) && JobShaped(cfg, st[p].workQ[0]);
  }

  lemma DrainKeeps(cfg: Config, st: State, act: Action)
    requires Inv(cfg, st) && RootOut(st) && Can(cfg, st, act) && Drains(act)
    ensures Inv(cfg, Do(cfg, st, act)) && RootOut(Do(cfg, st, act))
    ensures 0 <= TotalLoad(cfg.N(), Do(cfg, st, act)) < TotalLoad(cfg.N(), st)
    ensures |Do(cfg, st, act)| == |st| && forall q :: 0 <= q < |st| ==> SameHistory(st[q], Do(cfg, st, act)[q])
  {
    assert Shaped(cfg, st) && PeOk(cfg.N(), 0, st[0]);
    hide Inv, Do, Can, TotalLoad, SameHistory, Pending, PeOk;
    StepKeeps(cfg, st, act);
    InternalDrops(cfg, st, act);
    LoadsNonNegative(cfg, Do(cfg, st, act));
    forall q | 0 <= q < |st|
      ensures |Do(cfg, st, act)| == |st| && Pending(Do(cfg, st, act)[q].workQ) == []
      ensures SameHistory(st[q], Do(cfg, st, act)[q])
    {
      DrainKeepsAt(cfg, st, act, q);
      HistoryStays(cfg, st, act, q);
    }
    DrainKeepsAt(cfg, st, act, 0);
  }

  lemma DrainStep(cfg: Config, st: State) returns (r: Option<Action>)
    requires Inv(cfg, st) && RootOut(st)
    ensures r.None? ==> AllArrived(st)
    ensures r.Some? ==> Can(cfg, st, r.value) && Drains(r.value)
  {
    r := PipelineStep(cfg, st, cfg.N(), cfg.N(), cfg.N());
    if i :| 0 <= i < |st| && st[i].ctl.Arriving? {
      r := Some(Arrive(i));
    } else if r.Some? {
      assert r.value.WorkNbi? ==> Pending(st[r.value.p].workQ) != [];
    } else {
      IdleArrived(cfg, st);
    }
  }

  lemma IdleArrived(cfg: Config, st: State)
    requires Inv(cfg, st) && RootOut(st) && Idle(st, cfg.N(), cfg.N(), cfg.N())
    requires forall i :: 0 <= i < |st| ==> !st[i].ctl.Arriving?
    ensures AllArrived(st)
  {
    forall i | 0 < i < |st| ensures ArrivedAt(st[i], st[0], i) {
      IdleSettled(cfg, st, cfg.N(), cfg.N(), cfg.N(), i);
      RootReachable(cfg, i);
      assert Flow(cfg, i, 0, st[i], st[0]);
      NothingInFlight(cfg, i, 0, st[i], st[0]);
    }
  }

  lemma {:induction false} Drain(cfg: Config, st: State) returns (acts: seq<Action>, st': State)
    requires Inv(cfg, st) && RootOut(st)
    ensures Runs(cfg, st, acts, st') && Inv(cfg, st') && st'[0].ctl.Out? && AllArrived(st')
    ensures |st'| == |st| && forall q :: 0 <= q < |st| ==> SameHistory(st[q], st'[q])
    decreases TotalLoad(cfg.N(), st)
  {
    var r := DrainStep(cfg, st);
    if r.Some? {
      DrainKeeps(cfg, st, r.value);
      var more: seq<Action>;
      more, st' := Drain(cfg, Do(cfg, st, r.value));
      RunsCons(cfg, st, r.value, more, st');
      acts := [r.value] + more;
    } else {
      acts, st' := [], st;
    }
  }

  // ---- The run that leaves a nonblocking put behind ----

  /** The only nonblocking put of this PE waits, and was issued before its first barrier call. */
  predicate StillQueued(pe: Pe, job: Job)
  {
    pe.issued == [job] && pe.ran == [] && pe.marks == [1]
  }

  lemma IssueStep(cfg: Config, st: State, a: nat, job: Job)
    requires Inv(cfg, st) && a < |st| && st[a].ctl.Out? && job.Issued? && JobShaped(cfg, job)
    ensures var act := UserPutNbi(a, job.dest, job.offset, job.count);
            && Shaped(cfg, st) && Can(cfg, st, act) && Inv(cfg, Do(cfg, st, act))
            && Do(cfg, st, act) == st[a := NbiQueued(st[a], job)]
  {
    StepKeeps(cfg, st, UserPutNbi(a, job.dest, job.offset, job.count));
  }

  /** a issues the put, and everybody makes the first call. */
  lemma IssuedThenEntered(cfg: Config, a: nat, job: Job) returns (acts: seq<Action>, st: State)
    requires 0 < a < cfg.N() && job.Issued? && JobShaped(cfg, job)
    ensures Runs(cfg, Init(cfg), acts, st) && CanSleep(cfg, st, a) && StillQueued(st[a], job)
  {
    InitInv(cfg);
    var st0 := Init(cfg);
    var act := UserPutNbi(a, job.dest, job.offset, job.count);
    IssueStep(cfg, st0, a, job);
    var st1 := Do(cfg, st0, act);
    hide Inv, Do, Can, Shaped, JobShaped;
    var enters: seq<Action>;
    enters, st := EnterFrom(cfg, st1, 0);
    RunsCons(cfg, st0, act, enters, st);
    acts := [act] + enters;
  }

  /** Everybody but PE 0 makes the first call. */
  lemma OthersEnter(cfg: Config) returns (acts: seq<Action>, st: State)
    requires 0 < cfg.N()
    ensures Runs(cfg, Init(cfg), acts, st) && Inv(cfg, st) && RootOut(st)
    ensures |st| == cfg.N() && st[0] == Fresh(cfg) && forall q :: 0 < q < |st| ==> st[q].entered == 1
  {
    InitInv(cfg);
    var st0 := Init(cfg);
    assert |st0| == cfg.N() && forall q :: 0 <= q < |st0| ==> st0[q] == Fresh(cfg);
    assert Fresh(cfg).ctl.Out? && Pending(Fresh(cfg).workQ) == [] && Fresh(cfg).entered == 0;
    hide Inv, Do, Can, Shaped, Runs, Init, Fresh, Pending;
    acts, st := EnterFrom(cfg, st0, 1);
  }

  /** And all arrivals reach PE 0. */
  lemma OthersArrive(cfg: Config) returns (acts: seq<Action>, st: State)
    requires 0 < cfg.N()
    ensures Runs(cfg, Init(cfg), acts, st) && Inv(cfg, st) && AllArrived(st) && st[0].ctl.Out?
    ensures |st| == cfg.N() && SameHistory(Fresh(cfg), st[0]) && forall q :: 0 < q < |st| ==> st[q].entered == 1
  {
    var enters, st1 := OthersEnter(cfg);
    hide Inv, Do, Can, Shaped, Runs, RootOut, AllArrived, Fresh, Init;
    var drain;
    drain, st := Drain(cfg, st1);
    acts := RunsAppend(cfg, Init(cfg), enters, st1, drain, st);
  }

  /** Then PE 0 issues the put and makes its own call. */
  lemma RootIssues(cfg: Config, st: State, job: Job) returns (acts: seq<Action>, st': State)
    requires Inv(cfg, st) && |st| == cfg.N() && st[0].ctl.Out? && job.Issued? && JobShaped(cfg, job)
    ensures Runs(cfg, st, acts, st') && Inv(cfg, st') && st' == st[0 := CallBegun(0, NbiQueued(st[0], job))]
  {
    InvNonempty(cfg, st);
    hide Inv, Do, Can, JobShaped, Shaped;
    var act := UserPutNbi(0, job.dest, job.offset, job.count);
    IssueStep(cfg, st, 0, job);
    var st1 := Do(cfg, st, act);
    CallBegins(cfg, st1, 0);
    st' := Do(cfg, st1, Enter(0));
    RunsCons(cfg, st1, Enter(0), [], st');
    acts := [act] + [Enter(0)];
    RunsCons(cfg, st, act, [Enter(0)], st');
  }

  lemma IssuedByRoot(cfg: Config, job: Job) returns (acts: seq<Action>, st: State)
    requires 0 < cfg.N() && job.Issued? && JobShaped(cfg, job)
    ensures Runs(cfg, Init(cfg), acts, st) && CanSleep(cfg, st, 0) && StillQueued(st[0], job)
  {
    hide *;
    var others, st1 := OthersArrive(cfg);
    var calls;
    calls, st := RootIssues(cfg, st1, job);
    RootCanSleep(cfg, st1, st, job);
    acts := RunsAppend(cfg, Init(cfg), others, st1, calls, st);
  }

  lemma RootCanSleep(cfg: Config, st: State, st': State, job: Job)
    requires 0 < cfg.N() == |st| && AllArrived(st) && SameHistory(Fresh(cfg), st[0])
    requires Inv(cfg, st') && st' == st[0 := CallBegun(0, NbiQueued(st[0], job))]
    requires forall q :: 0 < q < |st| ==> st[q].entered == 1
    ensures CanSleep(cfg, st', 0) && StillQueued(st'[0], job)
  {
    hide Inv;
    forall i | 0 < i < |st'| ensures ArrivedAt(st'[i], st'[0], i) {
      assert ArrivedAt(st[i], st[0], i);
    }
  }

  /** For every pair but a PE on another host than PE 0 and itself, and for every nonblocking put:
      a run in which b, and everybody who does not need a's worker, leaves the first barrier while
      a's put, issued before its own call, still waits in a's work queue. */
  lemma LeavesNbiBehind(cfg: Config, a: nat, b: nat, offset: nat, count: nat)
    returns (acts: seq<Action>, st: State)
    requires a < cfg.N() && b < cfg.N() && !(a == b && cfg.pl.Remote(0, a)) && offset + count <= cfg.size
    ensures Runs(cfg, Init(cfg), acts, st) && |st| == cfg.N()
    ensures Left(st[b]) >= 1 && forall q :: 0 <= q < cfg.N() && Free(cfg, a, q) ==> Left(st[q]) >= 1
    ensures StillQueued(st[a], Issued(b, offset, count)) && !AllReached(st, a, b, 0)
  {
    var job := Issued(b, offset, count);
    var before: seq<Action>, st1: State;
    if a == 0 {
      before, st1 := IssuedByRoot(cfg, job);
    } else {
      before, st1 := IssuedThenEntered(cfg, a, job);
    }
    var asleep: seq<Action>;
    asleep, st := LeaveAsleep(cfg, st1, a);
    acts := RunsAppend(cfg, Init(cfg), before, st1, asleep, st);
    assert !Reached(st, a, b, 0);
  }

  /** Leaving a barrier completes the nonblocking puts of a to b that were issued before it, in
      every run, exactly when they are a's puts to itself and a runs on another host than PE 0:
      there the release passes through the work queue in which they wait. */
  lemma NbiGuaranteedExactly(cfg: Config, a: nat, b: nat)
    requires a < cfg.N() && b < cfg.N()
    ensures NbiGuaranteed(cfg, a, b) <==> a == b && cfg.pl.Remote(0, a)
  {
    if a == b && cfg.pl.Remote(0, a) {
      forall acts: seq<Action>, st: State, k: nat | Runs(cfg, Init(cfg), acts, st) && b < |st| && k < Left(st[b])
        ensures AllReached(st, a, b, k)
      {
        OwnReached(cfg, acts, st, a, k);
      }
    } else {
      var acts, st := LeavesNbiBehind(cfg, a, b, 0, 0);
    }
  }
}

/** Nonblocking puts and the barrier: a put issued by shmem_putmem_nbi waits in the worker's
    queue of its own PE (src/comm/comm.c:175-178, src/job/work.c:70-93, 127-145), and leaving a
    barrier says something about it only where the release passes through the same queue. */
module Nonblocking {
  import opened Delivery
  import opened Conservation
  import opened Barrier

  /** The nonblocking puts in a work queue. */
  function Pending(q: seq<Job>): seq<Job>
  {
    if q == [] then [] else (if q[0].Issued? then [q[0]] else []) + Pending(q[1..])
  }

  predicate IsRelease(job: Job) { job.Received? && job.origin == 0 && job.put.Flag? }

  /** A queue at whose head m releases have been written and `ran` nonblocking puts have run: the
      release of call m stands behind every nonblocking put issued before call m. */
  ghost predicate Behind(q: seq<Job>, m: nat, ran: nat, marks: seq<nat>)
  {
    if q == [] then true
    else if q[0].Issued? then Behind(q[1..], m, ran + 1, marks)
    else if IsRelease(q[0]) then m < |marks| && marks[m] <= ran && Behind(q[1..], m + 1, ran, marks)
    else Behind(q[1..], m, ran, marks)
  }

  /** The i-th nonblocking put of this PE has run: it was handed over like any other put. */
  ghost predicate RanOk(pe: Pe, i: nat)
    requires i < |pe.ran| <= |pe.issued|
  {
    var job := pe.issued[i];
    && job.Issued? && job.dest < |pe.handed| && pe.ran[i] < |pe.handed[job.dest]|
    && var put := pe.handed[job.dest][pe.ran[i]];
    put.Data? && put.offset == job.offset && |put.bytes| == job.count
  }

  /** Nonblocking puts run in the order of their issue. */
  ghost predicate NbiOk(pe: Pe)
  {
    && |pe.ran| <= |pe.issued| && Pending(pe.workQ) == pe.issued[|pe.ran|..]
    && |pe.marks| == pe.entered && (forall k :: 0 <= k < |pe.marks| ==> pe.marks[k] <= |pe.issued|)
    && (forall i :: 0 <= i < |pe.ran| ==> RanOk(pe, i))
  }

  /** What the releases of a PE on another host than PE 0 say about its nonblocking puts. */
  ghost predicate Ordered(pe: Pe)
  {
    && |pe.got| > 0 && Flags(pe.got[0]) <= |pe.marks|
    && (forall m :: 0 <= m < Flags(pe.got[0]) ==> pe.marks[m] <= |pe.ran|)
    && Behind(pe.workQ, Flags(pe.got[0]), |pe.ran|, pe.marks)
  }

  /** A nonblocking put issued before call k was handed over before call k + 1. */
  ghost predicate Deferred(pe: Pe)
  {
    forall k, i :: 0 <= k && k + 1 < |pe.snaps| && k < |pe.marks| && 0 <= i < pe.marks[k] ==> DeferredAt(pe, k, i)
  }

  ghost predicate DeferredAt(pe: Pe, k: nat, i: nat)
    requires k + 1 < |pe.snaps|
  {
    && i < |pe.ran| && i < |pe.issued| && pe.issued[i].Issued? && pe.issued[i].dest < |pe.snaps[k + 1]|
    && pe.ran[i] < |pe.snaps[k + 1][pe.issued[i].dest]|
  }

  ghost predicate NbiInv(cfg: Config, st: State)
  {
    && Inv(cfg, st)
    && (forall p :: 0 <= p < |st| ==> NbiGood(cfg, p, st[p]))
  }

  ghost predicate NbiGood(cfg: Config, p: nat, pe: Pe)
    requires p < cfg.N()
  {
    NbiOk(pe) && (cfg.pl.Remote(0, p) ==> Ordered(pe) && Deferred(pe))
  }

  lemma InitNbiInv(cfg: Config)
    requires cfg.N() > 0
    ensures NbiInv(cfg, Init(cfg))
  {
    InitInv(cfg);
  }

  // ---- Queues ----

  lemma {:induction false} PendingAppend(q: seq<Job>, job: Job)
    ensures Pending(q + [job]) == Pending(q) + if job.Issued? then [job] else []
  {
    if q == [] {
      assert q + [job] == [job] && [job][1..] == [];
    } else {
      PendingAppend(q[1..], job);
      assert (q + [job])[1..] == q[1..] + [job];
    }
  }

  lemma {:induction false} FlagsConcat(a: seq<Put>, b: seq<Put>)
    ensures Flags(a + b) == Flags(a) + Flags(b)
    decreases |b|
  {
    if b == [] {
      assert a + b == a;
    } else {
      var init, last := b[..|b| - 1], b[|b| - 1];
      FlagsConcat(a, init);
      FlagsAppend(a + init, last);
      FlagsAppend(init, last);
      assert a + b == (a + init) + [last] && b == init + [last];
    }
  }

  /** A job at the end of the queue; a release must come late enough. */
  lemma {:induction false} BehindAppend(q: seq<Job>, m: nat, ran: nat, marks: seq<nat>, job: Job)
    requires Behind(q, m, ran, marks)
    requires IsRelease(job) ==>
               var k := m + Flags(FromOrigin(q, 0)); k < |marks| && marks[k] <= ran + |Pending(q)|
    ensures Behind(q + [job], m, ran, marks)
    decreases |q|
  {
    if q == [] {
      assert q + [job] == [job] && [job][1..] == [];
    } else {
      assert (q + [job])[1..] == q[1..] + [job] && (q + [job])[0] == q[0];
      FlagsConcat(if q[0].Received? && q[0].origin == 0 then [q[0].put] else [], FromOrigin(q[1..], 0));
      OneFlag(q[0]);
      if q[0].Issued? { BehindAppend(q[1..], m, ran + 1, marks, job); }
      else if IsRelease(q[0]) { BehindAppend(q[1..], m + 1, ran, marks, job); }
      else { BehindAppend(q[1..], m, ran, marks, job); }
    }
  }

  lemma OneFlag(job: Job)
    ensures Flags([]) == 0
    ensures job.Received? ==> Flags([job.put]) == if job.put.Flag? then 1 else 0
  {
    if job.Received? {
      assert [] + [job.put] == [job.put];
      FlagsAppend([], job.put);
    }
  }

  lemma {:induction false} BehindMoreMarks(q: seq<Job>, m: nat, ran: nat, marks: seq<nat>, more: seq<nat>)
    requires Behind(q, m, ran, marks) && marks <= more
    ensures Behind(q, m, ran, more)
    decreases |q|
  {
    if q != [] {
      if q[0].Issued? { BehindMoreMarks(q[1..], m, ran + 1, marks, more); }
      else if IsRelease(q[0]) { BehindMoreMarks(q[1..], m + 1, ran, marks, more); }
      else { BehindMoreMarks(q[1..], m, ran, marks, more); }
    }
  }

  // ---- Steps on one record ----

  /** Nothing about nonblocking puts changes, except that more puts may be handed over. */
  ghost predicate Kept(pe: Pe, pe': Pe)
  {
    && pe'.workQ == pe.workQ && pe'.issued == pe.issued && pe'.ran == pe.ran
    && pe'.marks == pe.marks && pe'.entered == pe.entered && pe'.snaps == pe.snaps
    && |pe'.handed| == |pe.handed| && (forall b :: 0 <= b < |pe.handed| ==> pe.handed[b] <= pe'.handed[b])
  }

  lemma KeptNbiOk(pe: Pe, pe': Pe)
    requires NbiOk(pe) && Kept(pe, pe')
    ensures NbiOk(pe')
    ensures Deferred(pe) ==> Deferred(pe')
    ensures Ordered(pe) && |pe'.got| > 0 && pe'.got[0] == pe.got[0] ==> Ordered(pe')
  {
    forall i | 0 <= i < |pe'.ran| ensures RanOk(pe', i) {
      assert RanOk(pe, i);
    }
    forall k, i | 0 <= k && k + 1 < |pe'.snaps| && k < |pe'.marks| && 0 <= i < pe'.marks[k] && Deferred(pe)
      ensures DeferredAt(pe', k, i)
    {
      assert DeferredAt(pe, k, i);
    }
  }

  lemma CommPutKept(cfg: Config, st: State, p: nat, dest: nat, put: Put, q: nat)
    requires Shaped(cfg, st) && p < |st| && dest < |st| && PutShaped(cfg, put) && q < |st|
    ensures var st' := CommPut(cfg, st, p, dest, put);
            && Kept(st[q], st'[q]) && |st'[q].got| == |st[q].got| == cfg.N()
            && (cfg.pl.Remote(0, q) ==> st'[q].got[0] == st[q].got[0])
            && (q == p ==> st'[p].handed[dest] == st[p].handed[dest] + [put])
  {
    assert PeShaped(cfg, st[q]) && PeShaped(cfg, st[p]) && PeShaped(cfg, st[dest]);
  }

  /** A new nonblocking put waits behind everything else. */
  lemma QueuedOk(pe: Pe, job: Job)
    requires NbiOk(pe) && job.Issued?
    ensures NbiOk(NbiQueued(pe, job))
    ensures Deferred(pe) ==> Deferred(NbiQueued(pe, job))
    ensures Ordered(pe) ==> Ordered(NbiQueued(pe, job))
  {
    var pe' := NbiQueued(pe, job);
    PendingAppend(pe.workQ, job);
    forall i | 0 <= i < |pe'.ran| ensures RanOk(pe', i) {
      assert RanOk(pe, i);
    }
    if Deferred(pe) {
      forall k, i | 0 <= k && k + 1 < |pe'.snaps| && k < |pe'.marks| && 0 <= i < pe'.marks[k]
        ensures DeferredAt(pe', k, i)
      {
        assert DeferredAt(pe, k, i);
      }
    }
    if Ordered(pe) { BehindAppend(pe.workQ, Flags(pe.got[0]), |pe.ran|, pe.marks, job); }
  }

  /** The history is the same, and so are the nonblocking puts in the queue. */
  ghost predicate SameNbi(pe: Pe, pe': Pe)
  {
    && pe'.issued == pe.issued && pe'.ran == pe.ran && pe'.marks == pe.marks && pe'.entered == pe.entered
    && pe'.snaps == pe.snaps && pe'.handed == pe.handed && Pending(pe'.workQ) == Pending(pe.workQ)
  }

  lemma SameNbiOk(pe: Pe, pe': Pe)
    requires NbiOk(pe) && SameNbi(pe, pe')
    ensures NbiOk(pe') && (Deferred(pe) ==> Deferred(pe'))
  {
    forall i | 0 <= i < |pe'.ran| ensures RanOk(pe', i) {
      assert RanOk(pe, i);
    }
    if Deferred(pe) {
      forall k, i | 0 <= k && k + 1 < |pe'.snaps| && k < |pe'.marks| && 0 <= i < pe'.marks[k]
        ensures DeferredAt(pe', k, i)
      {
        assert DeferredAt(pe, k, i);
      }
    }
  }

  /** A received packet waits behind everything else; a release comes after its call began. */
  lemma ReceivedOk(pe: Pe, pe': Pe, job: Job)
    requires NbiOk(pe) && job.Received? && pe' == pe.(workQ := pe.workQ + [job])
    requires IsRelease(job) && |pe.got| > 0 ==> Flags(pe.got[0]) + Flags(FromOrigin(pe.workQ, 0)) < pe.entered
    ensures NbiOk(pe')
    ensures Deferred(pe) ==> Deferred(pe')
    ensures Ordered(pe) ==> Ordered(pe')
  {
    PendingAppend(pe.workQ, job);
    SameNbiOk(pe, pe');
    if Ordered(pe) { BehindAppend(pe.workQ, Flags(pe.got[0]), |pe.ran|, pe.marks, job); }
  }

  /** The packet at the head is written to memory. */
  lemma WrittenOk(pe: Pe, pe': Pe, job: Job)
    requires NbiOk(pe) && pe.workQ != [] && pe.workQ[0] == job && job.Received? && pe'.workQ == pe.workQ[1..]
    requires pe'.issued == pe.issued && pe'.ran == pe.ran && pe'.marks == pe.marks && pe'.entered == pe.entered
    requires pe'.snaps == pe.snaps && pe'.handed == pe.handed
    requires job.origin < |pe.got| && pe'.got == pe.got[job.origin := pe.got[job.origin] + [job.put]]
    ensures NbiOk(pe')
    ensures Deferred(pe) ==> Deferred(pe')
    ensures Ordered(pe) ==> Ordered(pe')
  {
    assert Pending(pe'.workQ) == Pending(pe.workQ);
    SameNbiOk(pe, pe');
    hide NbiOk, Deferred, Pending;
    FlagsAppend(pe.got[job.origin], job.put);
    hide Flags;
  }

  /** The nonblocking put at the head runs. */
  lemma TakenOk(pe: Pe, pe': Pe, put: Put)
    requires NbiOk(pe) && pe.workQ != [] && pe.workQ[0].Issued? && pe.workQ[0].dest < |pe.handed|
    requires Kept(NbiTaken(pe), pe')
    requires var job := pe.workQ[0];
             && put.Data? && put.offset == job.offset && |put.bytes| == job.count
             && pe'.handed[job.dest] == pe.handed[job.dest] + [put]
    ensures NbiOk(pe')
    ensures Deferred(pe) ==> Deferred(pe')
    ensures Ordered(pe) && |pe'.got| > 0 && pe'.got[0] == pe.got[0] ==> Ordered(pe')
  {
    assert Pending(pe.workQ) == [pe.workQ[0]] + Pending(pe.workQ[1..]);
    assert pe.issued[|pe.ran|] == pe.workQ[0];
    forall i | 0 <= i < |pe'.ran| ensures RanOk(pe', i) {
      if i < |pe.ran| { assert RanOk(pe, i); }
    }
    if Deferred(pe) {
      forall k, i | 0 <= k && k + 1 < |pe'.snaps| && k < |pe'.marks| && 0 <= i < pe'.marks[k]
        ensures DeferredAt(pe', k, i)
      {
        assert DeferredAt(pe, k, i);
      }
    }
  }

  /** A barrier call begins: the one before has been left. */
  lemma EnterNbiOk(pe: Pe, pe': Pe, ctl: Control)
    requires NbiOk(pe) && |pe.snaps| == pe.entered
    requires pe' == pe.(ctl := ctl, entered := pe.entered + 1, snaps := pe.snaps + [pe.handed],
                        marks := pe.marks + [|pe.issued|])
    ensures NbiOk(pe')
    ensures Ordered(pe) ==> Ordered(pe')
    ensures Deferred(pe) && (pe.entered > 0 ==> pe.marks[pe.entered - 1] <= |pe.ran|) ==> Deferred(pe')
  {
    forall i | 0 <= i < |pe'.ran| ensures RanOk(pe', i) {
      assert RanOk(pe, i);
    }
    if Ordered(pe) { BehindMoreMarks(pe.workQ, Flags(pe.got[0]), |pe.ran|, pe.marks, pe'.marks); }
    if Deferred(pe) && (pe.entered > 0 ==> pe.marks[pe.entered - 1] <= |pe.ran|) {
      forall k, i | 0 <= k && k + 1 < |pe'.snaps| && k < |pe'.marks| && 0 <= i < pe'.marks[k]
        ensures DeferredAt(pe', k, i)
      {
        if k + 1 < |pe.snaps| {
          assert DeferredAt(pe, k, i);
        } else {
          assert RanOk(pe, i);
        }
      }
    }
  }

  // ---- Every action ----

  lemma QuietNbi(cfg: Config, st: State, act: Action, q: nat)
    requires Shaped(cfg, st) && Can(cfg, st, act) && q < |st|
    requires act.See? || act.Leave? || act.SeeNext? || act.Collect? || act.Turn? || act.Done? || act.Send?
    ensures var st' := Do(cfg, st, act);
            |st'| == |st| && Kept(st[q], st'[q]) && st'[q].got == st[q].got
  {}

  lemma SignalNbi(cfg: Config, st: State, p: nat, dest: nat, put: Put, ctl: Control, q: nat)
    requires Shaped(cfg, st) && p < |st| && dest < |st| && PutShaped(cfg, put) && q < |st|
    ensures var st' := WithControl(CommPut(cfg, st, p, dest, put), p, ctl);
            && Kept(st[q], st'[q]) && |st'[q].got| == |st[q].got| == cfg.N()
            && (cfg.pl.Remote(0, q) ==> st'[q].got[0] == st[q].got[0])
  {
    CommPutKept(cfg, st, p, dest, put, q);
  }

  /** A release that arrives belongs to a call its PE has made. */
  lemma ReleaseInCall(cfg: Config, st: State, q: nat)
    requires Inv(cfg, st) && 0 < q < |st| && st[0].wire[q] != [] && st[0].wire[q][0].Flag?
    ensures Flags(st[q].got[0]) + Flags(FromOrigin(st[q].workQ, 0)) < st[q].entered
  {
    Chase(cfg, st, q);
    assert PeShaped(cfg, st[0]) && PeShaped(cfg, st[q]) && PeOk(cfg.N(), q, st[q]) && Signals(q, st[q], st[0]);
    assert Flow(cfg, 0, q, st[0], st[q]);
    var got, queued, wire := st[q].got[0], FromOrigin(st[q].workQ, 0), st[0].wire[q];
    hide Inv, Flow, FromOrigin;
    var rest := SendTo(st[0].sendQ, q);
    var all := st[0].handed[q];
    assert all == got + (queued + wire + rest);
    assert got + (queued + wire + rest) == ((got + queued) + [wire[0]]) + (wire[1..] + rest) by {
      assert wire == [wire[0]] + wire[1..];
    }
    FlagsConcat(got, queued);
    FlagsAppend(got + queued, wire[0]);
    FlagsPrefix((got + queued) + [wire[0]], all);
  }

  lemma EnterStep(cfg: Config, st: State, p: nat)
    requires Inv(cfg, st) && Can(cfg, st, Enter(p)) && NbiGood(cfg, p, st[p])
    ensures NbiGood(cfg, p, Do(cfg, st, Enter(p))[p])
  {
    var pe, pe' := st[p], Do(cfg, st, Enter(p))[p];
    assert PeOk(cfg.N(), p, pe);
    EnterNbiOk(pe, pe', pe'.ctl);
    if cfg.pl.Remote(0, p) { LeftCallRan(cfg, st, p); }
  }

  /** A PE on another host than PE 0 has run, when it leaves a barrier call, every nonblocking put
      it issued before the call. */
  lemma LeftCallRan(cfg: Config, st: State, p: nat)
    requires Inv(cfg, st) && p < |st| && cfg.pl.Remote(0, p) && Ordered(st[p])
    ensures Left(st[p]) <= |st[p].marks|
    ensures forall k :: 0 <= k < Left(st[p]) ==> st[p].marks[k] <= |st[p].ran|
  {
    assert Signals(p, st[p], st[0]);
  }

  /** What receiving a packet does to the record of PE q. */
  lemma RecvEffect(cfg: Config, st: State, a: nat, b: nat, q: nat)
    requires Shaped(cfg, st) && Can(cfg, st, Recv(a, b)) && q < |st|
    ensures var pe' := Do(cfg, st, Recv(a, b))[q];
            && |Do(cfg, st, Recv(a, b))| == |st| && pe'.got == st[q].got
            && Kept(if q == b then st[b].(workQ := st[b].workQ + [Received(a, st[a].wire[b][0])]) else st[q], pe')
  {}

  lemma RecvStep(cfg: Config, st: State, a: nat, b: nat, q: nat)
    requires Inv(cfg, st) && Can(cfg, st, Recv(a, b)) && q < |st| && NbiGood(cfg, q, st[q])
    ensures |Do(cfg, st, Recv(a, b))| == |st| && NbiGood(cfg, q, Do(cfg, st, Recv(a, b))[q])
  {
    RecvEffect(cfg, st, a, b, q);
    var pe, pe' := st[q], Do(cfg, st, Recv(a, b))[q];
    var put := st[a].wire[b][0];
    NoSelfWire(cfg, st);
    if q == b && a == 0 && put.Flag? { ReleaseInCall(cfg, st, b); }
    assert |pe.got| == cfg.N() by { assert PeShaped(cfg, pe); }
    hide Inv, Shaped, Do, Kept, NbiOk, Ordered, Deferred, Flags, FromOrigin;
    if q == b {
      var mid := pe.(workQ := pe.workQ + [Received(a, put)]);
      ReceivedOk(pe, mid, Received(a, put));
      KeptNbiOk(mid, pe');
    } else {
      KeptNbiOk(pe, pe');
    }
  }

  lemma NoSelfWire(cfg: Config, st: State)
    requires Inv(cfg, st)
    ensures |st| > 0 && |st[0].wire| == |st| && st[0].wire[0] == []
  {
    assert PeShaped(cfg, st[0]) && Flow(cfg, 0, 0, st[0], st[0]);
  }

  lemma WorkStep(cfg: Config, st: State, p: nat)
    requires Inv(cfg, st) && Can(cfg, st, Work(p)) && NbiGood(cfg, p, st[p])
    ensures NbiGood(cfg, p, Do(cfg, st, Work(p))[p])
  {
    var job := st[p].workQ[0];
    assert PeShaped(cfg, st[p]) && JobShaped(cfg, job);
    WrittenOk(st[p], Do(cfg, st, Work(p))[p], job);
  }

  /** What running a nonblocking put of p does to the record of PE q. */
  lemma WorkNbiEffect(cfg: Config, st: State, p: nat, source: seq<nat>, q: nat)
    requires Shaped(cfg, st) && Can(cfg, st, WorkNbi(p, source)) && q < |st|
    ensures var pe', job := Do(cfg, st, WorkNbi(p, source))[q], st[p].workQ[0];
            && |Do(cfg, st, WorkNbi(p, source))| == |st| && job.dest < |st[p].handed|
            && Kept(if q == p then NbiTaken(st[p]) else st[q], pe') && |pe'.got| == |st[q].got| == cfg.N()
            && (cfg.pl.Remote(0, q) ==> pe'.got[0] == st[q].got[0])
            && (q == p ==> pe'.handed[job.dest] == st[p].handed[job.dest] + [Data(job.offset, source)])
  {
    var job := st[p].workQ[0];
    assert PeShaped(cfg, st[p]) && JobShaped(cfg, job);
    var st1 := st[p := NbiTaken(st[p])];
    assert Shaped(cfg, st1);
    CommPutKept(cfg, st1, p, job.dest, Data(job.offset, source), q);
  }

  lemma WorkNbiStep(cfg: Config, st: State, p: nat, source: seq<nat>, q: nat)
    requires Shaped(cfg, st) && Can(cfg, st, WorkNbi(p, source)) && q < |st| && NbiGood(cfg, q, st[q])
    ensures |Do(cfg, st, WorkNbi(p, source))| == |st| && NbiGood(cfg, q, Do(cfg, st, WorkNbi(p, source))[q])
  {
    WorkNbiEffect(cfg, st, p, source, q);
    var pe' := Do(cfg, st, WorkNbi(p, source))[q];
    hide Do, Shaped, Kept, NbiOk, Ordered, Deferred;
    if q == p { TakenOk(st[p], pe', Data(st[p].workQ[0].offset, source)); } else { KeptNbiOk(st[q], pe'); }
  }

  lemma UserPutStep(cfg: Config, st: State, p: nat, dest: nat, put: Put, q: nat)
    requires Shaped(cfg, st) && p < |st| && dest < |st| && PutShaped(cfg, put) && q < |st| && NbiGood(cfg, q, st[q])
    ensures NbiGood(cfg, q, CommPut(cfg, st, p, dest, put)[q])
  {
    CommPutKept(cfg, st, p, dest, put, q);
    hide CommPut;
    KeptNbiOk(st[q], CommPut(cfg, st, p, dest, put)[q]);
  }

  lemma SignalStep(cfg: Config, st: State, p: nat, dest: nat, put: Put, ctl: Control, q: nat)
    requires Shaped(cfg, st) && p < |st| && dest < |st| && PutShaped(cfg, put) && q < |st| && NbiGood(cfg, q, st[q])
    ensures NbiGood(cfg, q, WithControl(CommPut(cfg, st, p, dest, put), p, ctl)[q])
  {
    SignalNbi(cfg, st, p, dest, put, ctl, q);
    hide CommPut;
    KeptNbiOk(st[q], WithControl(CommPut(cfg, st, p, dest, put), p, ctl)[q]);
  }

  lemma QuietStep(cfg: Config, st: State, act: Action, q: nat)
    requires Shaped(cfg, st) && Can(cfg, st, act) && q < |st| && NbiGood(cfg, q, st[q])
    requires act.See? || act.Leave? || act.SeeNext? || act.Collect? || act.Turn? || act.Done? || act.Send?
    ensures |Do(cfg, st, act)| == |st| && NbiGood(cfg, q, Do(cfg, st, act)[q])
  {
    QuietNbi(cfg, st, act, q);
    hide Do;
    KeptNbiOk(st[q], Do(cfg, st, act)[q]);
  }

  lemma OwnStep(cfg: Config, st: State, act: Action, q: nat)
    requires NbiInv(cfg, st) && Can(cfg, st, act) && q < |st| && (act.UserPutNbi? || act.Enter? || act.Work?)
    ensures |Do(cfg, st, act)| == |st| && NbiGood(cfg, q, Do(cfg, st, act)[q])
  {
    assert NbiGood(cfg, q, st[q]);
    hide NbiOk, Ordered, Deferred, Written;
    if q == act.p {
      match act
      case UserPutNbi(p, dest, offset, count) => QueuedOk(st[q], Issued(dest, offset, count));
      case Enter(p) => EnterStep(cfg, st, p);
      case Work(p) => WorkStep(cfg, st, p);
    }
  }

  lemma PutActStep(cfg: Config, st: State, act: Action, q: nat)
    requires Shaped(cfg, st) && Can(cfg, st, act) && q < |st| && NbiGood(cfg, q, st[q])
    requires act.UserPut? || act.Arrive? || act.Release?
    ensures |Do(cfg, st, act)| == |st| && NbiGood(cfg, q, Do(cfg, st, act)[q])
  {
    hide NbiGood, PeShaped;
    match act
    case UserPut(p, dest, put) => UserPutStep(cfg, st, p, dest, put, q);
    case Arrive(p) => SignalStep(cfg, st, p, 0, Flag(p), Waiting, q);
    case Release => SignalStep(cfg, st, 0, st[0].ctl.next, Flag(st[0].ctl.next), Releasing(st[0].ctl.next + 1), q);
  }

  lemma NbiStep(cfg: Config, st: State, act: Action, q: nat)
    requires NbiInv(cfg, st) && Can(cfg, st, act) && q < |st|
    ensures |Do(cfg, st, act)| == |st| && NbiGood(cfg, q, Do(cfg, st, act)[q])
  {
    assert NbiGood(cfg, q, st[q]) && Shaped(cfg, st) && Inv(cfg, st);
    hide *;
    match act
    case UserPut(p, dest, put) => PutActStep(cfg, st, act, q);
    case Arrive(p) => PutActStep(cfg, st, act, q);
    case Release => PutActStep(cfg, st, act, q);
    case UserPutNbi(p, dest, offset, count) => OwnStep(cfg, st, act, q);
    case Enter(p) => OwnStep(cfg, st, act, q);
    case Work(p) => OwnStep(cfg, st, act, q);
    case Recv(a, b) => RecvStep(cfg, st, a, b, q);
    case WorkNbi(p, source) => WorkNbiStep(cfg, st, p, source, q);
    case _ => QuietStep(cfg, st, act, q);
  }

  lemma NbiStepKeeps(cfg: Config, st: State, act: Action)
    requires NbiInv(cfg, st) && Can(cfg, st, act)
    ensures NbiInv(cfg, Do(cfg, st, act))
  {
    StepKeeps(cfg, st, act);
    hide Do, Can, NbiGood;
    forall q | 0 <= q < |Do(cfg, st, act)| ensures NbiGood(cfg, q, Do(cfg, st, act)[q]) {
      NbiStep(cfg, st, act, q);
    }
  }

  lemma {:induction false} NbiRunKeeps(cfg: Config, from: State, acts: seq<Action>, st: State)
    requires NbiInv(cfg, from) && Runs(cfg, from, acts, st)
    ensures NbiInv(cfg, st)
    decreases |acts|
  {
    if acts != [] {
      NbiStepKeeps(cfg, from, acts[0]);
      NbiRunKeeps(cfg, Do(cfg, from, acts[0]), acts[1..], st);
    }
  }
}

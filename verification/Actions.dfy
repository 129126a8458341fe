/** What the actions do, field by field: when a call is allowed, what it hands over, queues, moves
    and writes, and that nothing else changes (src/comm/comm.c:96-178, src/comm/comm_local.c:117-127,
    src/comm/comm_remote.c:73-150, 383-397, src/job/work.c:70-174). */
module Actions {
  import opened Topology
  import opened Delivery
  import opened Conservation

  predicate SameHost(cfg: Config, a: nat, b: nat)
    requires a < cfg.N() && b < cfg.N()
  {
    cfg.pl.hosts[a] == cfg.pl.hosts[b]
  }

  predicate Covers(put: Put, x: nat)
  {
    put.Data? && put.offset <= x < put.offset + |put.bytes|
  }

  // ---- What a put does to one record ----

  /** Nothing of the thread's own has changed: control, calls, snapshots, nonblocking puts. */
  ghost predicate SameThread(pe: Pe, pe': Pe)
  {
    && pe'.ctl == pe.ctl && pe'.entered == pe.entered && pe'.snaps == pe.snaps
    && pe'.issued == pe.issued && pe'.ran == pe.ran && pe'.marks == pe.marks
  }

  ghost predicate SamePipes(pe: Pe, pe': Pe)
  {
    pe'.sendQ == pe.sendQ && pe'.wire == pe.wire && pe'.workQ == pe.workQ
  }

  ghost predicate SameStore(pe: Pe, pe': Pe)
  {
    pe'.heap == pe.heap && pe'.flags == pe.flags && pe'.got == pe.got
  }

  /** `dest` was handed one more put, and nobody else. */
  ghost predicate Handed(pe: Pe, pe': Pe, dest: nat, put: Put)
  {
    && |pe'.handed| == |pe.handed|
    && forall b :: 0 <= b < |pe.handed| ==> pe'.handed[b] == pe.handed[b] + if b == dest then [put] else []
  }

  /** The put of `origin` is in memory: its bytes at its offset, or its flag; all else is as before. */
  ghost predicate Stored(pe: Pe, pe': Pe, origin: nat, put: Put)
  {
    && |pe'.heap| == |pe.heap| && |pe'.flags| == |pe.flags| && |pe'.got| == |pe.got|
    && (put.Data? ==> put.offset + |put.bytes| <= |pe.heap|)
    && (forall x :: 0 <= x < |pe.heap| ==>
          pe'.heap[x] == if Covers(put, x) then put.bytes[x - put.offset] else pe.heap[x])
    && (forall i :: 0 <= i < |pe.flags| ==> pe'.flags[i] == (pe.flags[i] || put == Flag(i)))
    && (forall a :: 0 <= a < |pe.got| ==> pe'.got[a] == pe.got[a] + if a == origin then [put] else [])
  }

  /** What comm_put from p to dest does to the record of q. On one host the put is in dest's memory
      at once; otherwise it is last in p's send queue and no memory changes. */
  ghost predicate PutDone(cfg: Config, p: nat, dest: nat, put: Put, q: nat, pe: Pe, pe': Pe)
    requires p < cfg.N() && dest < cfg.N()
  {
    && (if q == p then Handed(pe, pe', dest, put) else pe'.handed == pe.handed)
    && (if q == dest && SameHost(cfg, p, dest) then Stored(pe, pe', p, put) else SameStore(pe, pe'))
    && pe'.wire == pe.wire && pe'.workQ == pe.workQ
    && pe'.sendQ == if q == p && !SameHost(cfg, p, dest) then pe.sendQ + [Packet(dest, put)] else pe.sendQ
  }

  lemma WrittenStores(pe: Pe, origin: nat, put: Put)
    requires origin < |pe.got|
    requires if put.Flag? then put.slot < |pe.flags| else put.offset + |put.bytes| <= |pe.heap|
    ensures Stored(pe, Written(pe, origin, put), origin, put) && SameThread(pe, Written(pe, origin, put))
    ensures SamePipes(pe, Written(pe, origin, put)) && Written(pe, origin, put).handed == pe.handed
  {}

  lemma HandedOverHands(pe: Pe, dest: nat, put: Put)
    requires dest < |pe.handed|
    ensures var pe' := HandedOver(pe, dest, put);
            Handed(pe, pe', dest, put) && SameThread(pe, pe') && SamePipes(pe, pe') && SameStore(pe, pe')
  {}

  lemma CommPutDoes(cfg: Config, st: State, p: nat, dest: nat, put: Put, q: nat)
    requires Shaped(cfg, st) && p < |st| && dest < |st| && PutShaped(cfg, put) && q < |st|
    ensures var st' := CommPut(cfg, st, p, dest, put);
            |st'| == |st| && PutDone(cfg, p, dest, put, q, st[q], st'[q]) && SameThread(st[q], st'[q])
  {
    assert PeShaped(cfg, st[p]) && PeShaped(cfg, st[dest]);
    var handed := HandedOver(st[p], dest, put);
    HandedOverHands(st[p], dest, put);
    WrittenStores(if p == dest then handed else st[dest], p, put);
    hide Shaped, PeShaped, PutShaped, HandedOver, Written, Handed;
  }

  // ---- Calls of the user ----

  /** A blocking put is allowed outside the barrier, inside the heap. It is handed over once, to its
      destination only, and is then in memory or last in the send queue. */
  lemma UserPutDoes(cfg: Config, st: State, p: nat, dest: nat, put: Put)
    requires Shaped(cfg, st) && p < |st| && dest < |st|
    ensures Can(cfg, st, UserPut(p, dest, put)) <==>
              st[p].ctl.Out? && put.Data? && put.offset + |put.bytes| <= cfg.size
    ensures Can(cfg, st, UserPut(p, dest, put)) ==>
              var st' := Do(cfg, st, UserPut(p, dest, put));
              && |st'| == |st|
              && forall q :: 0 <= q < |st| ==>
                   PutDone(cfg, p, dest, put, q, st[q], st'[q]) && SameThread(st[q], st'[q])
  {
    if Can(cfg, st, UserPut(p, dest, put)) {
      forall q | 0 <= q < |st| { CommPutDoes(cfg, st, p, dest, put, q); }
    }
  }

  /** The put is then last of all that is on its way to its destination. */
  lemma QueuedLast(cfg: Config, p: nat, dest: nat, put: Put, pe: Pe, pe': Pe)
    requires p < cfg.N() && dest < cfg.N() && !SameHost(cfg, p, dest)
    requires PutDone(cfg, p, dest, put, p, pe, pe')
    ensures SendTo(pe'.sendQ, dest) == SendTo(pe.sendQ, dest) + [put]
    ensures forall b: nat :: b != dest ==> SendTo(pe'.sendQ, b) == SendTo(pe.sendQ, b)
  {
    forall b: nat {
      SendToAppend(pe.sendQ, Packet(dest, put), b);
    }
  }

  /** A nonblocking put only joins the work queue of its own PE, as its last job. */
  lemma UserPutNbiDoes(cfg: Config, st: State, p: nat, dest: nat, offset: nat, count: nat)
    requires Shaped(cfg, st) && p < |st| && dest < |st|
    ensures Can(cfg, st, UserPutNbi(p, dest, offset, count)) <==> st[p].ctl.Out? && offset + count <= cfg.size
    ensures Can(cfg, st, UserPutNbi(p, dest, offset, count)) ==>
              var job := Issued(dest, offset, count);
              Do(cfg, st, UserPutNbi(p, dest, offset, count)) ==
                st[p := st[p].(issued := st[p].issued + [job], workQ := st[p].workQ + [job])]
  {}

  /** A barrier call begins: it remembers what is handed over and issued by now. */
  lemma EnterDoes(cfg: Config, st: State, p: nat)
    requires Shaped(cfg, st) && p < |st|
    ensures Can(cfg, st, Enter(p)) <==> st[p].ctl.Out?
    ensures Can(cfg, st, Enter(p)) ==>
              Do(cfg, st, Enter(p)) ==
                st[p := st[p].(ctl := if p == 0 then Collecting(1) else Arriving, entered := st[p].entered + 1,
                               snaps := st[p].snaps + [st[p].handed], marks := st[p].marks + [|st[p].issued|])]
  {}

  // ---- Signals ----

  /** A signal is a put of one flag, and the user thread moves on. */
  ghost predicate Signalled(cfg: Config, st: State, st': State, p: nat, dest: nat, put: Put, ctl: Control)
    requires Shaped(cfg, st) && p < |st| && dest < |st|
  {
    && |st'| == |st| && st'[p].ctl == ctl
    && forall q :: 0 <= q < |st| ==>
         && PutDone(cfg, p, dest, put, q, st[q], st'[q])
         && SameThread(st[q], st'[q].(ctl := st[q].ctl)) && (q != p ==> st'[q].ctl == st[q].ctl)
  }

  lemma ControlAside(cfg: Config, p: nat, dest: nat, put: Put, q: nat, pe: Pe, pe': Pe, ctl: Control)
    requires p < cfg.N() && dest < cfg.N() && PutDone(cfg, p, dest, put, q, pe, pe') && SameThread(pe, pe')
    ensures PutDone(cfg, p, dest, put, q, pe, pe'.(ctl := ctl)) && SameThread(pe, pe'.(ctl := pe.ctl))
  {}

  lemma SignalDoes(cfg: Config, st: State, p: nat, dest: nat, put: Put, ctl: Control)
    requires Shaped(cfg, st) && p < |st| && dest < |st| && PutShaped(cfg, put)
    ensures Signalled(cfg, st, WithControl(CommPut(cfg, st, p, dest, put), p, ctl), p, dest, put, ctl)
  {
    var st1 := CommPut(cfg, st, p, dest, put);
    CommPutDoes(cfg, st, p, dest, put, p);
    ControlAside(cfg, p, dest, put, p, st[p], st1[p], ctl);
    forall q | 0 <= q < |st| ensures PutDone(cfg, p, dest, put, q, st[q], st1[q]) && SameThread(st[q], st1[q]) {
      CommPutDoes(cfg, st, p, dest, put, q);
    }
    hide CommPut, Shaped, PutShaped, PutDone;
  }

  /** PE p puts the flag of its own slot at PE 0. */
  lemma ArriveDoes(cfg: Config, st: State, p: nat)
    requires Shaped(cfg, st) && p < |st|
    ensures Can(cfg, st, Arrive(p)) <==> st[p].ctl.Arriving?
    ensures Can(cfg, st, Arrive(p)) ==> Signalled(cfg, st, Do(cfg, st, Arrive(p)), p, 0, Flag(p), Waiting)
  {
    SignalDoes(cfg, st, p, 0, Flag(p), Waiting);
  }

  /** PE 0 puts the flag of the next PE's slot at that PE. */
  lemma ReleaseDoes(cfg: Config, st: State, i: nat)
    requires Shaped(cfg, st) && st[0].ctl == Releasing(i)
    ensures Can(cfg, st, Release) <==> i < |st|
    ensures Can(cfg, st, Release) ==> Signalled(cfg, st, Do(cfg, st, Release), 0, i, Flag(i), Releasing(i + 1))
  {
    if i < |st| { SignalDoes(cfg, st, 0, i, Flag(i), Releasing(i + 1)); }
  }

  // ---- The pipeline ----

  /** The first packet goes from the send queue to the end of its wire, if there is one. */
  lemma SendDoes(cfg: Config, st: State, p: nat)
    requires Shaped(cfg, st) && p < |st|
    ensures Can(cfg, st, Send(p)) <==> st[p].sendQ != []
    ensures Can(cfg, st, Send(p)) ==>
              var Packet(dest, put) := st[p].sendQ[0];
              var wired := dest < cfg.N() && !SameHost(cfg, p, dest) && Splits(p, dest);
              && dest < |st[p].wire|
              && Do(cfg, st, Send(p)) ==
                   st[p := st[p].(sendQ := st[p].sendQ[1..],
                                  wire := if wired then st[p].wire[dest := st[p].wire[dest] + [put]] else st[p].wire)]
  {
    assert PeShaped(cfg, st[p]);
  }

  /** The first put of a wire becomes the last job of the receiver. */
  lemma RecvDoes(cfg: Config, st: State, a: nat, b: nat)
    requires Shaped(cfg, st) && a < |st| && b < |st| && |st[a].wire| == |st|
    ensures Can(cfg, st, Recv(a, b)) <==> st[a].wire[b] != []
    ensures Can(cfg, st, Recv(a, b)) ==>
              var st' := Do(cfg, st, Recv(a, b));
              var put := st[a].wire[b][0];
              && |st'| == |st|
              && forall q :: 0 <= q < |st| ==>
                   st'[q] == st[q].(wire := if q == a then st[a].wire[b := st[a].wire[b][1..]] else st[q].wire,
                                    workQ := st[q].workQ + if q == b then [Received(a, put)] else [])
  {}

  /** The worker takes the first job; a received put is stored, of the PE it came from. */
  lemma WorkDoes(cfg: Config, st: State, p: nat)
    requires Shaped(cfg, st) && p < |st|
    ensures Can(cfg, st, Work(p)) <==> st[p].workQ != [] && st[p].workQ[0].Received?
    ensures Can(cfg, st, Work(p)) ==>
              var job, pe' := st[p].workQ[0], Do(cfg, st, Work(p))[p];
              && Do(cfg, st, Work(p)) == st[p := pe'] && Stored(st[p], pe', job.origin, job.put)
              && pe'.workQ == st[p].workQ[1..] && pe'.sendQ == st[p].sendQ && pe'.wire == st[p].wire
              && pe'.handed == st[p].handed && SameThread(st[p], pe')
  {
    assert PeShaped(cfg, st[p]);
    if Can(cfg, st, Work(p)) { assert JobShaped(cfg, st[p].workQ[0]); }
  }

  /** A nonblocking put runs as a blocking put of what its source holds now, whatever that is. */
  lemma WorkNbiDoes(cfg: Config, st: State, p: nat, source: seq<nat>)
    requires Shaped(cfg, st) && p < |st|
    ensures Can(cfg, st, WorkNbi(p, source)) <==>
              st[p].workQ != [] && st[p].workQ[0].Issued? && |source| == st[p].workQ[0].count
    ensures Can(cfg, st, WorkNbi(p, source)) ==>
              var job, st' := st[p].workQ[0], Do(cfg, st, WorkNbi(p, source));
              && |st'| == |st| && job.dest < |st| && job.dest < |st[p].handed|
              && forall q :: 0 <= q < |st| ==>
                   var pe := if q == p then st[p].(workQ := st[p].workQ[1..],
                                                   ran := st[p].ran + [|st[p].handed[job.dest]|])
                             else st[q];
                   PutDone(cfg, p, job.dest, Data(job.offset, source), q, pe, st'[q]) && SameThread(pe, st'[q])
  {
    if Can(cfg, st, WorkNbi(p, source)) {
      var job := st[p].workQ[0];
      assert PeShaped(cfg, st[p]) && JobShaped(cfg, job);
      var st1 := st[p := NbiTaken(st[p])];
      assert Shaped(cfg, st1);
      forall q | 0 <= q < |st| { CommPutDoes(cfg, st1, p, job.dest, Data(job.offset, source), q); }
    }
  }
}

/** What one action of the runtime does to memory: at most one PE's changes, and by memcpy of
    one put (src/comm/comm_local.c, src/job/work.c). */
module Writes {
  import opened Actions
  import opened Memory
  import opened Delivery
  import opened Conservation
  import opened Barrier

  /** The record's memory, and the puts that made it, are the same. */
  ghost predicate SameMemory(pe: Pe, pe': Pe) { pe.heap == pe'.heap && pe.got == pe'.got }

  /** A put touches the memory of no PE but its destination, and that one through memcpy only. */
  lemma CommPutMemory(cfg: Config, st: State, p: nat, dest: nat, put: Put, q: nat)
    requires Shaped(cfg, st) && p < |st| && dest < |st| && PutShaped(cfg, put) && q < |st|
    ensures var st' := CommPut(cfg, st, p, dest, put);
            if cfg.Local(p, dest) && q == dest
            then |st[q].got| == cfg.N() == |st[q].flags| && |st[q].heap| == cfg.size
              && SameMemory(Written(st[q], p, put), st'[q])
            else SameMemory(st[q], st'[q])
  {
    assert PeShaped(cfg, st[q]);
  }

  /** Actions that write no memory. */
  lemma QuietMemory(cfg: Config, st: State, act: Action, q: nat)
    requires Shaped(cfg, st) && Can(cfg, st, act) && q < |st|
    requires !act.UserPut? && !act.Arrive? && !act.Release? && !act.Work? && !act.WorkNbi?
    ensures var st' := Do(cfg, st, act); |st'| == |st| && SameMemory(st[q], st'[q])
  {}

  /** What an action writes: nothing, or one put of a PE into the memory of q. */
  datatype Write = Nothing | Into(origin: nat, q: nat, put: Put)

  /** The put reaches this memory, which changes by memcpy of exactly that put. */
  ghost predicate Gets(pe: Pe, pe': Pe, origin: nat, put: Put)
  {
    && origin < |pe.got| && pe'.got == pe.got[origin := pe.got[origin] + [put]]
    && (put.Data? ==> put.offset + |put.bytes| <= |pe.heap|)
    && pe'.heap == (if put.Data? then Memcpy(pe.heap, put.offset, put.bytes) else pe.heap)
  }

  /** The put that reaches q is the next one that its origin handed over for q. */
  ghost predicate IsNext(pe: Pe, sender: Pe, origin: nat, q: nat, put: Put)
  {
    && origin < |pe.got| && q < |sender.handed| && |pe.got[origin]| < |sender.handed[q]|
    && sender.handed[q][|pe.got[origin]|] == put
  }

  ghost predicate SameExcept(st: State, st': State, q: nat)
  {
    |st| == |st'| && forall r :: 0 <= r < |st| && r != q ==> SameMemory(st[r], st'[r])
  }

  ghost predicate Wrote(st: State, st': State, w: Write)
  {
    match w
    case Nothing => SameExcept(st, st', |st|)
    case Into(a, q, put) =>
      && SameExcept(st, st', q) && a < |st| && q < |st|
      && Gets(st[q], st'[q], a, put) && IsNext(st[q], st'[a], a, q, put)
  }

  lemma WrittenGets(pe: Pe, origin: nat, put: Put)
    requires origin < |pe.got|
    requires if put.Flag? then put.slot < |pe.flags| else put.offset + |put.bytes| <= |pe.heap|
    ensures Gets(pe, Written(pe, origin, put), origin, put)
  {}

  lemma GotIsNext(cfg: Config, st': State, pe: Pe, a: nat, q: nat, put: Put)
    requires Flows(cfg, st') && a < |st'| && q < |st'| && Gets(pe, st'[q], a, put)
    ensures IsNext(pe, st'[a], a, q, put)
  {
    GotIsPrefix(cfg, st', a, q);
    assert PeShaped(cfg, st'[a]);
    assert st'[q].got[a][|pe.got[a]|] == put;
  }

  /** What a put writes: itself at its destination on the same host, and nothing otherwise. */
  function PutWrite(cfg: Config, p: nat, dest: nat, put: Put): Write
    requires p < cfg.N() && dest < cfg.N()
  {
    if SameHost(cfg, p, dest) then Into(p, dest, put) else Nothing
  }

  /** What an action writes. */
  ghost function WriteOf(cfg: Config, st: State, act: Action): Write
    requires Shaped(cfg, st) && Can(cfg, st, act)
  {
    match act
    case UserPut(p, dest, put) => PutWrite(cfg, p, dest, put)
    case Arrive(p) => PutWrite(cfg, p, 0, Flag(p))
    case Release => PutWrite(cfg, 0, st[0].ctl.next, Flag(st[0].ctl.next))
    case Work(p) => Into(st[p].workQ[0].origin, p, st[p].workQ[0].put)
    case WorkNbi(p, source) =>
      var job := st[p].workQ[0];
      assert PeShaped(cfg, st[p]) && JobShaped(cfg, job);
      PutWrite(cfg, p, job.dest, Data(job.offset, source))
    case _ => Nothing
  }

  lemma PutWrites(cfg: Config, st: State, p: nat, dest: nat, put: Put, st0: State, st': State)
    requires Shaped(cfg, st) && p < |st| && dest < |st| && PutShaped(cfg, put)
    requires SameExcept(st0, st, |st|) && SameExcept(CommPut(cfg, st, p, dest, put), st', |st|) && Flows(cfg, st')
    ensures Wrote(st0, st', PutWrite(cfg, p, dest, put))
  {
    forall q | 0 <= q < |st| && !(cfg.Local(p, dest) && q == dest) ensures SameMemory(st0[q], st'[q]) {
      CommPutMemory(cfg, st, p, dest, put, q);
    }
    if cfg.Local(p, dest) {
      CommPutMemory(cfg, st, p, dest, put, dest);
      assert PeShaped(cfg, st[dest]);
      WrittenGets(st[dest], p, put);
      assert Gets(st0[dest], st'[dest], p, put);
      GotIsNext(cfg, st', st0[dest], p, dest, put);
    }
  }

  lemma WorkWrites(cfg: Config, st: State, p: nat)
    requires Shaped(cfg, st) && Can(cfg, st, Work(p)) && Flows(cfg, Do(cfg, st, Work(p)))
    ensures Wrote(st, Do(cfg, st, Work(p)), Into(st[p].workQ[0].origin, p, st[p].workQ[0].put))
  {
    var job := st[p].workQ[0];
    assert PeShaped(cfg, st[p]) && JobShaped(cfg, job);
    WrittenGets(st[p].(workQ := st[p].workQ[1..]), job.origin, job.put);
    GotIsNext(cfg, Do(cfg, st, Work(p)), st[p], job.origin, p, job.put);
  }

  lemma WorkNbiWrites(cfg: Config, st: State, p: nat, source: seq<nat>)
    requires Shaped(cfg, st) && Can(cfg, st, WorkNbi(p, source)) && Flows(cfg, Do(cfg, st, WorkNbi(p, source)))
    ensures Wrote(st, Do(cfg, st, WorkNbi(p, source)), WriteOf(cfg, st, WorkNbi(p, source)))
  {
    var job := st[p].workQ[0];
    assert PeShaped(cfg, st[p]) && JobShaped(cfg, job);
    var pe := NbiTaken(st[p]);
    assert PeShaped(cfg, pe);
    PutWrites(cfg, st[p := pe], p, job.dest, Data(job.offset, source), st, Do(cfg, st, WorkNbi(p, source)));
  }

  lemma SignalWrites(cfg: Config, st: State, p: nat, dest: nat, put: Put, ctl: Control)
    requires Shaped(cfg, st) && p < |st| && dest < |st| && PutShaped(cfg, put)
    requires Flows(cfg, WithControl(CommPut(cfg, st, p, dest, put), p, ctl))
    ensures Wrote(st, WithControl(CommPut(cfg, st, p, dest, put), p, ctl), PutWrite(cfg, p, dest, put))
  {
    PutWrites(cfg, st, p, dest, put, st, WithControl(CommPut(cfg, st, p, dest, put), p, ctl));
  }

  lemma QuietWrites(cfg: Config, st: State, act: Action)
    requires Shaped(cfg, st) && Can(cfg, st, act)
    requires !act.UserPut? && !act.Arrive? && !act.Release? && !act.Work? && !act.WorkNbi?
    ensures Wrote(st, Do(cfg, st, act), Nothing)
  {
    forall q | 0 <= q < |st| ensures |Do(cfg, st, act)| == |st| && SameMemory(st[q], Do(cfg, st, act)[q]) {
      QuietMemory(cfg, st, act, q);
    }
  }

  /** Every action writes exactly this: a put on one host into its destination, a job of the worker
      into its own PE's memory, by memcpy of the next put that its origin handed over, and anything
      else nothing. */
  lemma EveryActionWritesOnce(cfg: Config, st: State, act: Action)
    requires Inv(cfg, st) && Can(cfg, st, act)
    ensures Wrote(st, Do(cfg, st, act), WriteOf(cfg, st, act))
  {
    hide Wrote, Inv, CommPut, WithControl, Flow;
    FlowsOf(cfg, st);
    FlowsKept(cfg, st, act);
    match act
    case UserPut(p, dest, put) => PutWrites(cfg, st, p, dest, put, st, Do(cfg, st, act));
    case Arrive(p) => SignalWrites(cfg, st, p, 0, Flag(p), Waiting);
    case Release => SignalWrites(cfg, st, 0, st[0].ctl.next, Flag(st[0].ctl.next), Releasing(st[0].ctl.next + 1));
    case Work(p) => WorkWrites(cfg, st, p);
    case WorkNbi(p, source) => WorkNbiWrites(cfg, st, p, source);
    case _ => QuietWrites(cfg, st, act);
  }

  lemma FlowsOf(cfg: Config, st: State)
    requires Inv(cfg, st)
    ensures Flows(cfg, st)
  {}
}

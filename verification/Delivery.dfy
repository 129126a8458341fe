/** Puts and the barrier as a transition system. Each PE has a user thread, a communication
    thread and a worker thread; a put to another host passes through a send queue, a socket
    and a work queue before it reaches memory (src/comm/comm.c, src/comm/comm_remote.c,
    src/job/work.c). */
module Delivery {
  import opened Wiring
  import opened Topology
  import opened Memory

  /** What a put writes: the integer 1 into a pSync slot, or bytes at a heap offset. */
  datatype Put = Flag(slot: nat) | Data(offset: nat, bytes: seq<nat>)

  /** A packet in the send queue, with its destination. */
  datatype Packet = Packet(dest: nat, put: Put)

  /** A job for the worker: a packet received from a PE, or a nonblocking put of the user,
      whose source buffer is read only when the job runs. */
  datatype Job = Received(origin: nat, put: Put) | Issued(dest: nat, offset: nat, count: nat)

  /** Where the user thread stands in comm_barrier_all. Leaving and Clearing: the flag has been
      seen set and is cleared next. */
  datatype Control =
    | Out
    | Arriving | Waiting | Leaving
    | Collecting(next: nat) | Clearing(next: nat) | Releasing(next: nat)

  /** One PE. `wire[b]` holds what was written to the socket to b and not read yet. The other
      fields are history. `handed`: what was handed to comm_put for each PE; `got`: what each PE's
      puts wrote here; `snaps`: `handed` as it stood when each barrier call began. `issued`: the
      nonblocking puts of the user; `ran`: for each of them whose job has run, how many puts for
      its destination were handed over before it; `marks`: the length of `issued` when each
      barrier call began. */
  datatype Pe = Pe(
    ctl: Control, entered: nat,
    sendQ: seq<Packet>, wire: seq<seq<Put>>, workQ: seq<Job>,
    flags: seq<bool>, heap: seq<nat>,
    handed: seq<seq<Put>>, got: seq<seq<Put>>, snaps: seq<seq<seq<Put>>>,
    issued: seq<Job>, ran: seq<nat>, marks: seq<nat>)

  type State = seq<Pe>

  /** The job: where its PEs run and how large each symmetric heap is. */
  datatype Config = Config(pl: Placement, size: nat) {
    function N(): nat { pl.N() }

    predicate Local(a: nat, b: nat)
      requires a < N() && b < N()
    {
      !pl.Remote(a, b)
    }

    /** Wire-up left a connected socket between the two. */
    ghost predicate Connected(a: nat, b: nat)
      requires a < N() && b < N()
    {
      pl.Remote(a, b) && Splits(a, b)
    }
  }

  // ---- Actions ----

  datatype Action =
    | UserPut(p: nat, dest: nat, put: Put)
    | UserPutNbi(p: nat, dest: nat, offset: nat, count: nat)
    | Enter(p: nat)
    | Arrive(p: nat)
    | See(p: nat)
    | Leave(p: nat)
    | SeeNext
    | Collect
    | Turn
    | Release
    | Done
    | Send(p: nat)
    | Recv(a: nat, b: nat)
    | Work(p: nat)
    | WorkNbi(p: nat, source: seq<nat>)

  predicate InBounds(size: nat, put: Put)
  {
    put.Data? && put.offset + |put.bytes| <= size
  }

  ghost predicate Shaped(cfg: Config, st: State)
  {
    |st| == cfg.N() && cfg.N() > 0 && forall p :: 0 <= p < |st| ==> PeShaped(cfg, st[p])
  }

  ghost predicate PeShaped(cfg: Config, pe: Pe)
  {
    && |pe.wire| == |pe.flags| == |pe.handed| == |pe.got| == cfg.N()
    && |pe.heap| == cfg.size
    && (forall k :: 0 <= k < |pe.snaps| ==> |pe.snaps[k]| == cfg.N())
    && (forall k :: 0 <= k < |pe.sendQ| ==> pe.sendQ[k].dest < cfg.N() && PutShaped(cfg, pe.sendQ[k].put))
    && (forall k :: 0 <= k < |pe.workQ| ==> JobShaped(cfg, pe.workQ[k]))
    && (forall b, k :: 0 <= b < cfg.N() && 0 <= k < |pe.wire[b]| ==> PutShaped(cfg, pe.wire[b][k]))
  }

  predicate PutShaped(cfg: Config, put: Put)
  {
    if put.Flag? then put.slot < cfg.N() else InBounds(cfg.size, put)
  }

  predicate JobShaped(cfg: Config, job: Job)
  {
    match job
    case Received(origin, put) => origin < cfg.N() && PutShaped(cfg, put)
    case Issued(dest, offset, count) => dest < cfg.N() && offset + count <= cfg.size
  }

  function Fresh(cfg: Config): Pe
  {
    Pe(Out, 0, [], seq(cfg.N(), _ => []), [], seq(cfg.N(), _ => false), seq(cfg.size, _ => 0),
       seq(cfg.N(), _ => []), seq(cfg.N(), _ => []), [],
       [], [], [])
  }

  function Init(cfg: Config): State
  {
    seq(cfg.N(), _ => Fresh(cfg))
  }

  ghost predicate Can(cfg: Config, st: State, act: Action)
    requires Shaped(cfg, st)
  {
    match act
    case UserPut(p, dest, put) => p < |st| && dest < |st| && st[p].ctl.Out? && InBounds(cfg.size, put)
    case UserPutNbi(p, dest, offset, count) => p < |st| && dest < |st| && st[p].ctl.Out? && offset + count <= cfg.size
    case Enter(p) => p < |st| && st[p].ctl.Out?
    case Arrive(p) => p < |st| && st[p].ctl.Arriving?
    case See(p) => p < |st| && st[p].ctl.Waiting? && st[p].flags[p]
    case Leave(p) => p < |st| && st[p].ctl.Leaving?
    case SeeNext => st[0].ctl.Collecting? && st[0].ctl.next < |st| && st[0].flags[st[0].ctl.next]
    case Collect => st[0].ctl.Clearing? && st[0].ctl.next < |st|
    case Turn => st[0].ctl.Collecting? && st[0].ctl.next >= |st|
    case Release => st[0].ctl.Releasing? && st[0].ctl.next < |st|
    case Done => st[0].ctl.Releasing? && st[0].ctl.next >= |st|
    case Send(p) => p < |st| && st[p].sendQ != []
    case Recv(a, b) => a < |st| && b < |st| && st[a].wire[b] != []
    case Work(p) => p < |st| && st[p].workQ != [] && st[p].workQ[0].Received?
    case WorkNbi(p, source) =>
      p < |st| && st[p].workQ != [] && st[p].workQ[0].Issued? && |source| == st[p].workQ[0].count
  }

  // ---- Effects on one record ----

  /** The put reaches this PE's memory. */
  function Written(pe: Pe, origin: nat, put: Put): Pe
    requires origin < |pe.got|
    requires if put.Flag? then put.slot < |pe.flags| else put.offset + |put.bytes| <= |pe.heap|
  {
    var logged := pe.(got := pe.got[origin := pe.got[origin] + [put]]);
    match put
    case Flag(slot) => logged.(flags := pe.flags[slot := true])
    case Data(offset, bytes) => logged.(heap := Memcpy(pe.heap, offset, bytes))
  }

  function HandedOver(pe: Pe, dest: nat, put: Put): Pe
    requires dest < |pe.handed|
  {
    pe.(handed := pe.handed[dest := pe.handed[dest] + [put]])
  }

  /** A nonblocking put queues a job. */
  function NbiQueued(pe: Pe, job: Job): Pe
  {
    pe.(workQ := pe.workQ + [job], issued := pe.issued + [job])
  }

  /** The worker takes the job of a nonblocking put. */
  function NbiTaken(pe: Pe): Pe
    requires pe.workQ != [] && pe.workQ[0].Issued? && pe.workQ[0].dest < |pe.handed|
  {
    pe.(workQ := pe.workQ[1..], ran := pe.ran + [|pe.handed[pe.workQ[0].dest]|])
  }

  /** PE p begins a barrier call. */
  function CallBegun(p: nat, pe: Pe): Pe
  {
    pe.(ctl := if p == 0 then Collecting(1) else Arriving, entered := pe.entered + 1,
        snaps := pe.snaps + [pe.handed], marks := pe.marks + [|pe.issued|])
  }

  function Queued(pe: Pe, dest: nat, put: Put): Pe
  {
    pe.(sendQ := pe.sendQ + [Packet(dest, put)])
  }

  /** comm_put: straight into memory on the same host, into the send queue otherwise. */
  ghost function CommPut(cfg: Config, st: State, p: nat, dest: nat, put: Put): State
    requires Shaped(cfg, st) && p < |st| && dest < |st| && PutShaped(cfg, put)
  {
    var st1 := st[p := HandedOver(st[p], dest, put)];
    if cfg.Local(p, dest) then st1[dest := Written(st1[dest], p, put)]
    else st1[p := Queued(st1[p], dest, put)]
  }

  ghost function WithControl(st: State, p: nat, ctl: Control): State
    requires p < |st|
  {
    st[p := st[p].(ctl := ctl)]
  }

  ghost function Do(cfg: Config, st: State, act: Action): State
    requires Shaped(cfg, st) && Can(cfg, st, act)
  {
    match act
    case UserPut(p, dest, put) => CommPut(cfg, st, p, dest, put)
    case UserPutNbi(p, dest, offset, count) => st[p := NbiQueued(st[p], Issued(dest, offset, count))]
    case Enter(p) => st[p := CallBegun(p, st[p])]
    case Arrive(p) => WithControl(CommPut(cfg, st, p, 0, Flag(p)), p, Waiting)
    case See(p) => WithControl(st, p, Leaving)
    case SeeNext => WithControl(st, 0, Clearing(st[0].ctl.next))
    case Leave(p) => st[p := st[p].(ctl := Out, flags := st[p].flags[p := false])]
    case Collect =>
      var i := st[0].ctl.next;
      st[0 := st[0].(ctl := Collecting(i + 1), flags := st[0].flags[i := false])]
    case Turn => WithControl(st, 0, Releasing(1))
    case Release =>
      var i := st[0].ctl.next;
      WithControl(CommPut(cfg, st, 0, i, Flag(i)), 0, Releasing(i + 1))
    case Done => WithControl(st, 0, Out)
    case Send(p) =>
      // A packet for an unconnected PE is lost: the code writes to a socket it never initialised.
      var pkt := st[p].sendQ[0];
      var pe := st[p].(sendQ := st[p].sendQ[1..]);
      if cfg.Connected(p, pkt.dest)
      then st[p := pe.(wire := pe.wire[pkt.dest := pe.wire[pkt.dest] + [pkt.put]])]
      else st[p := pe]
    case Recv(a, b) =>
      var put := st[a].wire[b][0];
      var st1 := st[a := st[a].(wire := st[a].wire[b := st[a].wire[b][1..]])];
      st1[b := st1[b].(workQ := st1[b].workQ + [Received(a, put)])]
    case Work(p) =>
      var job := st[p].workQ[0];
      st[p := Written(st[p].(workQ := st[p].workQ[1..]), job.origin, job.put)]
    case WorkNbi(p, source) =>
      var job := st[p].workQ[0];
      assert PeShaped(cfg, st[p]) && JobShaped(cfg, job);
      var st1 := st[p := NbiTaken(st[p])];
      assert Shaped(cfg, st1);
      CommPut(cfg, st1, p, job.dest, Data(job.offset, source))
  }

  /** `st` is reached from `from` by performing the actions in order. */
  ghost predicate Runs(cfg: Config, from: State, acts: seq<Action>, st: State)
    decreases |acts|
  {
    if acts == [] then st == from
    else Shaped(cfg, from) && Can(cfg, from, acts[0]) && Runs(cfg, Do(cfg, from, acts[0]), acts[1..], st)
  }
}

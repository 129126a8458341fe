/** Wire-up as a transition system: every PE runs its program of accepts and connects,
    one blocking call at a time, against listener backlogs shared with everyone else
    (src/comm/comm_remote.c). The programs are a parameter here; Matched says what the
    protocol needs of them. */
module Handshake {
  import opened Wiring

  /** The program of each PE, and the socket-array slot each PE keeps for each other PE. */
  datatype Job = Job(progs: seq<seq<Op>>, slot: seq<seq<nat>>)

  /** One PE: its position, the calls made so far inside the current operation (`stage`),
      the backlogs of its two listeners, the handshake bytes in flight on connections made
      to it, and the peer at the far end of each stored socket. `accepted` is history. */
  datatype Pe = Pe(
    pc: nat, stage: nat,
    serving: nat, peer: nat,
    cmdQ: seq<nat>, dataQ: seq<nat>,
    ready: set<nat>, hello: map<nat, nat>,
    accepted: set<nat>,
    cmd: map<nat, nat>, data: map<nat, nat>,
    open: bool)

  type State = seq<Pe>

  function Peer(op: Op): nat { if op.Accept? then op.counted else op.server }

  ghost predicate IsLink(job: Job, c: nat, j: nat, s: nat)
  {
    c < |job.progs| && s < |job.progs| && j < |job.progs[c]| && job.progs[c][j].Connect? && job.progs[c][j].server == s
  }

  ghost predicate IsPeer(job: Job, p: nat, q: nat)
    requires p < |job.progs|
  {
    exists i :: 0 <= i < |job.progs[p]| && Peer(job.progs[p][i]) == q
  }

  /** The PEs whose connections s counts. */
  ghost function Counted(ops: seq<Op>): set<nat>
  {
    set i | 0 <= i < |ops| && ops[i].Accept? :: ops[i].counted
  }

  function NumAccepts(ops: seq<Op>): nat
  {
    if ops == [] then 0
    else NumAccepts(ops[..|ops| - 1]) + (if ops[|ops| - 1].Accept? then 1 else 0)
  }

  /** What a client's blocking step waits on, as a number that falls along the wait-for chain. */
  function Rank(levels: nat, p: nat, level: nat): int
  {
    if p % 2 == 0 then levels - level
    else if level == 0 then levels + 1
    else 2 * levels + 2 - level
  }

  // ---- What the protocol needs of the programs ----

  ghost predicate InRange(job: Job)
  {
    && |job.slot| == |job.progs|
    && (forall p :: 0 <= p < |job.progs| ==> |job.slot[p]| == |job.progs|)
    && (forall p, i :: 0 <= p < |job.progs| && 0 <= i < |job.progs[p]| ==>
          Peer(job.progs[p][i]) < |job.progs| && Peer(job.progs[p][i]) != p)
  }

  /** At every level, c connects to s exactly when s counts c. */
  ghost predicate Paired(job: Job)
  {
    forall c: nat, s: nat, level: nat :: c < |job.progs| && s < |job.progs| ==>
      (Accept(level, c) in job.progs[s] <==> Connect(level, s) in job.progs[c])
  }

  /** No PE meets the same peer twice, in either role. */
  ghost predicate Once(job: Job)
  {
    forall p, i, j :: 0 <= p < |job.progs| && 0 <= i < j < |job.progs[p]| ==>
      Peer(job.progs[p][i]) != Peer(job.progs[p][j])
  }

  /** Levels never fall, and a PE that accepts before it connects does so at a lower level. */
  ghost predicate Ascending(job: Job)
  {
    forall p, i, j :: 0 <= p < |job.progs| && 0 <= i < j < |job.progs[p]| ==>
      && job.progs[p][i].level <= job.progs[p][j].level
      && (job.progs[p][i].Accept? && job.progs[p][j].Connect? ==> job.progs[p][i].level < job.progs[p][j].level)
  }

  /** Following "is connecting to" always lowers the rank. */
  ghost predicate Ranked(job: Job, levels: nat)
    requires InRange(job)
  {
    && (forall c, j :: 0 <= c < |job.progs| && 0 <= j < |job.progs[c]| ==> job.progs[c][j].level < levels)
    && (forall c: nat, j: nat, s: nat, i: nat ::
          IsLink(job, c, j, s) && i < |job.progs[s]| && job.progs[s][i].Connect? ==>
            Rank(levels, s, job.progs[s][i].level) < Rank(levels, c, job.progs[c][j].level))
  }

  ghost predicate SlotsDistinct(job: Job)
    requires InRange(job)
  {
    forall p, i, j :: 0 <= p < |job.progs| && 0 <= i < j < |job.progs[p]| ==>
      job.slot[p][Peer(job.progs[p][i])] != job.slot[p][Peer(job.progs[p][j])]
  }

  ghost predicate Matched(job: Job, levels: nat)
  {
    InRange(job) && Paired(job) && Once(job) && Ascending(job) && Ranked(job, levels) && SlotsDistinct(job)
  }

  // ---- The transition system ----

  function Fresh(): Pe
  {
    Pe(0, 0, 0, 0, [], [], {}, map[], {}, map[], map[], true)
  }

  /** Every listener is open before anyone connects. */
  function Init(job: Job): State
  {
    seq(|job.progs|, _ => Fresh())
  }

  predicate Placed(job: Job, p: nat, pe: Pe)
  {
    p < |job.progs| && pe.pc <= |job.progs[p]| && pe.stage <= 3
  }

  ghost predicate Shaped(job: Job, st: State)
  {
    && |st| == |job.progs|
    && (forall p :: 0 <= p < |st| ==> Placed(job, p, st[p]))
  }

  predicate Finished(job: Job, p: nat, pe: Pe)
    requires Placed(job, p, pe)
  {
    pe.pc == |job.progs[p]|
  }

  function Current(job: Job, p: nat, pe: Pe): Op
    requires Placed(job, p, pe) && !Finished(job, p, pe)
  {
    job.progs[p][pe.pc]
  }

  ghost predicate Accepting(job: Job, p: nat, pe: Pe)
  {
    Placed(job, p, pe) && !Finished(job, p, pe) && Current(job, p, pe).Accept?
  }

  ghost predicate Connecting(job: Job, p: nat, pe: Pe)
  {
    Placed(job, p, pe) && !Finished(job, p, pe) && Current(job, p, pe).Connect?
  }

  /** The accepting side can go on. */
  ghost predicate CanAccept(n: nat, pe: Pe)
  {
    if pe.stage == 0 then pe.cmdQ != []
    else if pe.stage == 1 then true
    else if pe.stage == 2 then pe.serving in pe.hello && pe.hello[pe.serving] < n
    else pe.dataQ != [] && pe.peer < n
  }

  /** The accepting side: accept, send a byte, read the caller's number, accept its data socket. */
  ghost function AcceptStep(slot: seq<nat>, pe: Pe): Pe
    requires CanAccept(|slot|, pe)
  {
    if pe.stage == 0 then
      pe.(serving := pe.cmdQ[0], cmdQ := pe.cmdQ[1..], accepted := pe.accepted + {pe.cmdQ[0]}, stage := 1)
    else if pe.stage == 1 then
      pe.(ready := pe.ready + {pe.serving}, stage := 2)
    else if pe.stage == 2 then
      var who := pe.hello[pe.serving];
      pe.(peer := who, hello := pe.hello - {pe.serving}, cmd := pe.cmd[slot[who] := pe.serving], stage := 3)
    else
      pe.(data := pe.data[slot[pe.peer] := pe.dataQ[0]], dataQ := pe.dataQ[1..], pc := pe.pc + 1, stage := 0)
  }

  /** The connecting side can go on: a refused connect is retried, a missing byte is waited for. */
  ghost predicate CanConnect(p: nat, pe: Pe, srv: Pe)
  {
    if pe.stage == 0 then srv.open
    else if pe.stage == 1 then p in srv.ready
    else true
  }

  /** The connecting side, in its own record: connect, read the byte, send its number,
      connect the data socket. */
  ghost function ConnectStep(slot: seq<nat>, pe: Pe, srv: Pe, s: nat): Pe
    requires s < |slot|
  {
    if pe.stage == 0 then pe.(cmd := pe.cmd[slot[s] := s], stage := 1)
    else if pe.stage == 1 then pe.(stage := 2)
    else if pe.stage == 2 then pe.(stage := 3)
    else if srv.open then pe.(data := pe.data[slot[s] := s], pc := pe.pc + 1, stage := 0)
    else pe.(pc := pe.pc + 1, stage := 0)
  }

  /** The same call seen at the server: its backlogs and the bytes in flight. */
  ghost function ServerSees(p: nat, pe: Pe, srv: Pe): Pe
  {
    if pe.stage == 0 then srv.(cmdQ := srv.cmdQ + [p])
    else if pe.stage == 1 then srv.(ready := srv.ready - {p})
    else if pe.stage == 2 then srv.(hello := srv.hello[p := p])
    else if srv.open then srv.(dataQ := srv.dataQ + [p])
    else srv
  }

  /** The call PE p is in can return now. */
  ghost predicate CanMove(job: Job, st: State, p: nat)
    requires InRange(job) && Shaped(job, st)
  {
    p < |st| &&
    if Finished(job, p, st[p]) then st[p].open
    else if Current(job, p, st[p]).Accept? then CanAccept(|st|, st[p])
    else CanConnect(p, st[p], st[Current(job, p, st[p]).server])
  }

  /** The call returns; a PE whose program is over closes its listeners. */
  ghost function Move(job: Job, st: State, p: nat): State
    requires InRange(job) && Shaped(job, st) && CanMove(job, st, p)
  {
    if Finished(job, p, st[p]) then
      st[p := st[p].(open := false)]
    else if Current(job, p, st[p]).Accept? then
      st[p := AcceptStep(job.slot[p], st[p])]
    else
      var s := Current(job, p, st[p]).server;
      st[s := ServerSees(p, st[p], st[s])][p := ConnectStep(job.slot[p], st[p], st[s], s)]
  }
}

/** What each blocking call of the handshake waits for and does, in the order of the source
    (src/comm/comm_remote.c:200-260). */
module HandshakeCalls {
  import opened Handshake

  /** The server accepts the caller that has waited longest, sends it a byte, reads its number,
      stores the connection in the slot of that number, and accepts a data socket for it. */
  lemma AcceptDoes(job: Job, st: State, s: nat)
    requires InRange(job) && Shaped(job, st) && s < |st| && Accepting(job, s, st[s])
    ensures st[s].stage == 0 ==>
              && (CanMove(job, st, s) <==> st[s].cmdQ != [])
              && (CanMove(job, st, s) ==>
                    var c := st[s].cmdQ[0];
                    Move(job, st, s) ==
                      st[s := st[s].(serving := c, cmdQ := st[s].cmdQ[1..], accepted := st[s].accepted + {c},
                                     stage := 1)])
    ensures st[s].stage == 1 ==>
              && CanMove(job, st, s)
              && Move(job, st, s) == st[s := st[s].(ready := st[s].ready + {st[s].serving}, stage := 2)]
    ensures st[s].stage == 2 ==>
              var c := st[s].serving;
              && (CanMove(job, st, s) <==> c in st[s].hello && st[s].hello[c] < |st|)
              && (CanMove(job, st, s) ==>
                    var who := st[s].hello[c];
                    Move(job, st, s) ==
                      st[s := st[s].(peer := who, hello := st[s].hello - {c},
                                     cmd := st[s].cmd[job.slot[s][who] := c], stage := 3)])
    ensures st[s].stage == 3 ==>
              && (CanMove(job, st, s) <==> st[s].dataQ != [] && st[s].peer < |st|)
              && (CanMove(job, st, s) ==>
                    Move(job, st, s) ==
                      st[s := st[s].(data := st[s].data[job.slot[s][st[s].peer] := st[s].dataQ[0]],
                                     dataQ := st[s].dataQ[1..], pc := st[s].pc + 1, stage := 0)])
  {
    assert Placed(job, s, st[s]);
  }

  /** The client connects once the server listens and then waits last in its backlog, takes the byte
      the server sent it, sends its own number, and connects the data socket. */
  lemma ConnectDoes(job: Job, st: State, c: nat, s: nat)
    requires InRange(job) && Shaped(job, st) && c < |st| && s < |st| && Connecting(job, c, st[c])
    requires Current(job, c, st[c]).server == s
    ensures c != s && |job.slot[c]| == |st|
    ensures st[c].stage == 0 ==>
              && (CanMove(job, st, c) <==> st[s].open)
              && (CanMove(job, st, c) ==>
                    Move(job, st, c) ==
                      st[s := st[s].(cmdQ := st[s].cmdQ + [c])]
                        [c := st[c].(cmd := st[c].cmd[job.slot[c][s] := s], stage := 1)])
    ensures st[c].stage == 1 ==>
              && (CanMove(job, st, c) <==> c in st[s].ready)
              && (CanMove(job, st, c) ==>
                    Move(job, st, c) == st[s := st[s].(ready := st[s].ready - {c})][c := st[c].(stage := 2)])
    ensures st[c].stage == 2 ==>
              && CanMove(job, st, c)
              && Move(job, st, c) == st[s := st[s].(hello := st[s].hello[c := c])][c := st[c].(stage := 3)]
    ensures st[c].stage == 3 ==>
              && CanMove(job, st, c)
              && Move(job, st, c) ==
                   if st[s].open
                   then st[s := st[s].(dataQ := st[s].dataQ + [c])]
                          [c := st[c].(data := st[c].data[job.slot[c][s] := s], pc := st[c].pc + 1, stage := 0)]
                   else st[c := st[c].(pc := st[c].pc + 1, stage := 0)]
  {
    assert Placed(job, c, st[c]);
    assert Peer(job.progs[c][st[c].pc]) == s;
  }

  /** A PE whose program is over closes its listeners once. */
  lemma CloseDoes(job: Job, st: State, p: nat)
    requires InRange(job) && Shaped(job, st) && p < |st| && Placed(job, p, st[p]) && Finished(job, p, st[p])
    ensures CanMove(job, st, p) <==> st[p].open
    ensures CanMove(job, st, p) ==> Move(job, st, p) == st[p := st[p].(open := false)]
  {}
}

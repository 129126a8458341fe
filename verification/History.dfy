/** What a run has recorded: the puts its actions made, call by call, in every reachable state. */
module History {
  import opened Wiring
  import opened Actions
  import opened Delivery
  import opened Conservation
  import opened Barrier

  /** The put that an action hands to comm_put of PE a for PE b, if it does. */
  function HandsOver(st: State, act: Action, a: nat, b: nat): seq<Put>
  {
    match act
    case UserPut(p, dest, put) => if p == a && dest == b then [put] else []
    case Arrive(p) => if p == a && b == 0 then [Flag(p)] else []
    case Release => if a == 0 && |st| > 0 && st[0].ctl == Releasing(b) then [Flag(b)] else []
    case WorkNbi(p, source) =>
      if p == a < |st| && st[a].workQ != [] && st[a].workQ[0].Issued? && st[a].workQ[0].dest == b
      then [Data(st[a].workQ[0].offset, source)]
      else []
    case _ => []
  }

  /** The puts a run hands to comm_put of a for b, in order. */
  ghost function HandedIn(cfg: Config, from: State, acts: seq<Action>, a: nat, b: nat): seq<Put>
    decreases |acts|
  {
    if acts == [] || !Shaped(cfg, from) || !Can(cfg, from, acts[0]) then []
    else HandsOver(from, acts[0], a, b) + HandedIn(cfg, Do(cfg, from, acts[0]), acts[1..], a, b)
  }

  /** The nonblocking puts that the user of p makes in a run, in order. */
  function IssuedIn(acts: seq<Action>, p: nat): seq<Job>
  {
    if acts == [] then []
    else
      var act := acts[0];
      (if act.UserPutNbi? && act.p == p then [Issued(act.dest, act.offset, act.count)] else []) + IssuedIn(acts[1..], p)
  }

  // ---- One action ----

  lemma QuietHands(cfg: Config, st: State, act: Action, a: nat)
    requires Shaped(cfg, st) && Can(cfg, st, act) && a < |st|
    requires !act.UserPut? && !act.Arrive? && !act.Release? && !act.WorkNbi?
    ensures |Do(cfg, st, act)| == |st| && Do(cfg, st, act)[a].handed == st[a].handed
  {}

  /** Every action hands over exactly this. */
  lemma StepHands(cfg: Config, st: State, act: Action, a: nat, b: nat)
    requires Shaped(cfg, st) && Can(cfg, st, act) && a < |st| && b < |st|
    ensures var st' := Do(cfg, st, act);
            && |st'| == |st| && |st'[a].handed| == |st[a].handed| == |st|
            && st'[a].handed[b] == st[a].handed[b] + HandsOver(st, act, a, b)
  {
    assert PeShaped(cfg, st[a]);
    match act
    case UserPut(p, dest, put) => UserPutDoes(cfg, st, p, dest, put);
    case Arrive(p) => ArriveDoes(cfg, st, p);
    case Release => ReleaseDoes(cfg, st, st[0].ctl.next);
    case WorkNbi(p, source) => WorkNbiDoes(cfg, st, p, source);
    case _ => QuietHands(cfg, st, act, a);
  }

  lemma QuietRecords(cfg: Config, st: State, act: Action, p: nat)
    requires Shaped(cfg, st) && Can(cfg, st, act) && p < |st|
    requires !act.UserPut? && !act.UserPutNbi? && !act.Enter? && !act.Arrive? && !act.Release? && !act.WorkNbi?
    ensures var pe, pe' := st[p], Do(cfg, st, act)[p];
            && |Do(cfg, st, act)| == |st|
            && pe'.issued == pe.issued && pe'.snaps == pe.snaps && pe'.marks == pe.marks && pe'.entered == pe.entered
  {}

  /** Every action records exactly this: a nonblocking put in `issued`, and at the beginning of a
      barrier call what is handed over and how much is issued. */
  lemma StepRecords(cfg: Config, st: State, act: Action, p: nat)
    requires Shaped(cfg, st) && Can(cfg, st, act) && p < |st|
    ensures var pe, pe' := st[p], Do(cfg, st, act)[p];
            && |Do(cfg, st, act)| == |st|
            && pe'.issued == pe.issued + IssuedIn([act], p)
            && pe'.snaps == pe.snaps + (if act == Enter(p) then [pe.handed] else [])
            && pe'.marks == pe.marks + (if act == Enter(p) then [|pe.issued|] else [])
            && pe'.entered == pe.entered + (if act == Enter(p) then 1 else 0)
  {
    match act
    case UserPut(q, dest, put) => UserPutDoes(cfg, st, q, dest, put);
    case UserPutNbi(q, dest, offset, count) => UserPutNbiDoes(cfg, st, q, dest, offset, count);
    case Enter(q) => EnterDoes(cfg, st, q);
    case Arrive(q) => ArriveDoes(cfg, st, q);
    case Release => ReleaseDoes(cfg, st, st[0].ctl.next);
    case WorkNbi(q, source) => WorkNbiDoes(cfg, st, q, source);
    case _ => QuietRecords(cfg, st, act, p);
  }

  // ---- Runs ----

  /** What was handed over in a run is what its actions made, in order. */
  lemma {:induction false} RunHands(cfg: Config, from: State, acts: seq<Action>, st: State, a: nat, b: nat)
    requires Inv(cfg, from) && Runs(cfg, from, acts, st) && a < |from| && b < |from|
    ensures |st| == |from| == |st[a].handed| == |from[a].handed|
    ensures st[a].handed[b] == from[a].handed[b] + HandedIn(cfg, from, acts, a, b)
    decreases |acts|
  {
    assert |from[a].handed| == |from| by { assert PeShaped(cfg, from[a]); }
    hide Inv, Do, Can, HandsOver, Flows, Shaped;
    if acts == [] {
    } else {
      var next := Do(cfg, from, acts[0]);
      StepHands(cfg, from, acts[0], a, b);
      StepKeeps(cfg, from, acts[0]);
      RunHands(cfg, next, acts[1..], st, a, b);
      AppendAssociative(from[a].handed[b], HandsOver(from, acts[0], a, b), HandedIn(cfg, next, acts[1..], a, b));
    }
  }

  /** And what was issued is what the user issued. */
  lemma {:induction false} RunIssues(cfg: Config, from: State, acts: seq<Action>, st: State, p: nat)
    requires Inv(cfg, from) && Runs(cfg, from, acts, st) && p < |from|
    ensures |st| == |from| && st[p].issued == from[p].issued + IssuedIn(acts, p)
    decreases |acts|
  {
    hide Inv, Do, Can;
    if acts == [] {
    } else {
      StepRecords(cfg, from, acts[0], p);
      StepKeeps(cfg, from, acts[0]);
      RunIssues(cfg, Do(cfg, from, acts[0]), acts[1..], st, p);
      IssuedInFirst(acts, p);
    }
  }

  lemma IssuedInFirst(acts: seq<Action>, p: nat)
    requires acts != []
    ensures IssuedIn(acts, p) == IssuedIn([acts[0]], p) + IssuedIn(acts[1..], p)
  {
    assert [acts[0]][1..] == [];
  }

  /** What is handed over by now stays so, and is in the snapshot of every later barrier call. */
  lemma {:induction false} SnapsLater(cfg: Config, from: State, acts: seq<Action>, st: State, a: nat, b: nat)
    requires Inv(cfg, from) && Runs(cfg, from, acts, st) && a < |from| && b < |from|
    ensures |st| == |from| == |st[a].handed| == |from[a].handed| && from[a].handed[b] <= st[a].handed[b]
    ensures from[a].snaps <= st[a].snaps
    ensures forall k :: |from[a].snaps| <= k < |st[a].snaps| ==>
              b < |st[a].snaps[k]| && from[a].handed[b] <= st[a].snaps[k][b]
    decreases |acts|
  {
    assert |from[a].handed| == |from| by { assert PeShaped(cfg, from[a]); }
    hide Inv, Do, Can, HandsOver, Flows, Shaped;
    if acts == [] {
    } else {
      var next := Do(cfg, from, acts[0]);
      StepHands(cfg, from, acts[0], a, b);
      StepRecords(cfg, from, acts[0], a);
      StepKeeps(cfg, from, acts[0]);
      SnapsLater(cfg, next, acts[1..], st, a, b);
      forall k | |from[a].snaps| <= k < |st[a].snaps|
        ensures b < |st[a].snaps[k]| && from[a].handed[b] <= st[a].snaps[k][b]
      {
        if k < |next[a].snaps| { assert st[a].snaps[k] == next[a].snaps[k]; }
      }
    }
  }

  /** In every reachable state: what was handed over and issued is what the actions of the run
      made, in order. */
  lemma RecordsAreActions(cfg: Config, acts: seq<Action>, st: State, a: nat, b: nat)
    requires cfg.N() > 0 && Runs(cfg, Init(cfg), acts, st) && a < cfg.N() && b < cfg.N()
    ensures Inv(cfg, st) && |st| == cfg.N() == |st[a].handed|
    ensures st[a].handed[b] == HandedIn(cfg, Init(cfg), acts, a, b) && st[a].issued == IssuedIn(acts, a)
  {
    hide *;
    InitInv(cfg);
    NothingYet(cfg, a, b);
    RunKeeps(cfg, Init(cfg), acts, st);
    RunHands(cfg, Init(cfg), acts, st, a, b);
    RunIssues(cfg, Init(cfg), acts, st, a);
    assert [] + HandedIn(cfg, Init(cfg), acts, a, b) == HandedIn(cfg, Init(cfg), acts, a, b);
    assert [] + IssuedIn(acts, a) == IssuedIn(acts, a);
  }

  lemma NothingYet(cfg: Config, a: nat, b: nat)
    requires a < cfg.N() && b < cfg.N()
    ensures |Init(cfg)| == cfg.N() == |Init(cfg)[a].handed|
    ensures Init(cfg)[a].handed[b] == [] && Init(cfg)[a].issued == []
  {}
}

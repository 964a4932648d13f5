/** Every step of the system keeps its invariant, whoever takes it. */
module SystemSteps {
  import opened Options
  import opened RequestFacts
  import opened System
  import opened SystemInvariant
  import opened ThreadCell
  import opened ThreadProgram

  // ---------------------------------------------------------------- threads

  lemma ThreadKeepsCells(s: System, s': System, t: nat, act: Action)
    requires ThreadStep(s, s', t, act) && CellsInv(s)
    ensures CellsInv(s')
  {
    hide OwnerNext, CellInv, Touches;
    OwnerKeepsCell(s.cells[t], s'.cells[t], act);
  }

  lemma ThreadKeepsRegistry(s: System, s': System, t: nat, act: Action)
    requires ThreadStep(s, s', t, act) && RegistryInv(s)
    ensures RegistryInv(s') && s.registry <= s'.registry && (CollectorHolds(s.gc) ==> s'.registry == s.registry)
  {
    hide OwnerEdge, CollectorHolds, Joining;
    JoiningEdges(s.cells[t].sh, s.cells[t].pc, act, s'.cells[t].pc);
    RegistryEdges(s.cells[t].sh, s.cells[t].pc, act, s'.cells[t].pc);
    OwnerNeverNew(s.cells[t].sh, s.cells[t].pc, act, s'.cells[t].pc);
  }

  lemma ThreadKeepsLocks(s: System, s': System, t: nat, act: Action)
    requires ThreadStep(s, s', t, act) && LocksInv(s)
    ensures LocksInv(s')
  {
    hide OwnerEdge;
    LockEdges(s.cells[t].sh, s.cells[t].pc, act, s'.cells[t].pc);
    forall q | 0 <= q < |s'.cells| ensures LockFits(s'.locks, q, s'.cells[q].pc) {
      assert LockFits(s.locks, q, s.cells[q].pc);
      assert LockFits(s.locks, t, s.cells[t].pc);
    }
  }

  lemma AskPathLasts(s: System, s': System, t: nat, n: nat)
    requires Grows(s, s') && s'.registry == s.registry && AskPath(s, t, n)
    requires t < |s.cells| ==> s'.cells[t].ags == s.cells[t].ags
    ensures AskPath(s', t, n)
  {
  }

  lemma ThreadKeepsInv(s: System, s': System, t: nat, act: Action)
    requires ThreadStep(s, s', t, act) && SysInv(s)
    ensures SysInv(s')
  {
    hide OwnerEdge, CellInv, Touches, LockFits, GcFacts, AskPath;
    ThreadKeepsCells(s, s', t, act);
    ThreadKeepsRegistry(s, s', t, act);
    ThreadKeepsLocks(s, s', t, act);
    OwnerLasts(s.cells[t], s'.cells[t], act);
    if s.gc.GcAsk? { AskKept(s, s'); }
    GcFactsLast(s, s');
  }

  lemma AskKept(s: System, s': System)
    requires Grows(s, s') && GcFacts(s) && s.gc.GcAsk?
    requires forall q :: 0 <= q < |s.cells| ==> s'.cells[q].ags == s.cells[q].ags
    ensures s.gc.i < |s.gc.list| && AskPath(s', s.gc.list[s.gc.i], s.gc.seen)
  {
    AskPathLasts(s, s', s.gc.list[s.gc.i], s.gc.seen);
  }

  lemma ReleaseKeepsInv(s: System, s': System, t: nat, l: nat)
    requires ReleaseStep(s, s', t, l) && SysInv(s)
    ensures SysInv(s')
  {
    hide CellInv, AskPath;
    forall q | 0 <= q < |s'.cells| ensures LockFits(s'.locks, q, s'.cells[q].pc) {
      assert LockFits(s.locks, q, s.cells[q].pc);
    }
    assert CellsInv(s');
    if s.gc.GcAsk? { AskKept(s, s'); }
    GcFactsLast(s, s');
  }

  // ---------------------------------------------------------------- births

  lemma BornInv(c: Cell)
    requires CellInv(c) && c.pc == Unborn
    ensures CellInv(Born(c)) && Lasts(c, Born(c)) && Born(c).ags == c.ags
  {
    var d := Born(c);
    forall r | 0 <= r < |c.ags| ensures AgentInv(d, r) {
      assert AgentInv(c, r);
    }
    forall a | 0 <= a < |d.sh.req| ensures ReqOk(d.sh, d.pc, a, HolderBusy(d, a)) {
      assert ReqOk(c.sh, c.pc, a, HolderBusy(c, a));
    }
  }

  lemma BirthKeepsInv(s: System, s': System, t: nat)
    requires t < |s.cells| && s.cells[t].pc == Unborn && SysInv(s)
    requires s'.cells == s.cells[t := Born(s.cells[t])]
    requires s'.registry == s.registry || (s.registry == [] && s.regHolder == None && s'.registry == [t])
    requires s'.registry != s.registry ==> s.cells[t].started
    requires s'.regHolder == s.regHolder && s'.locks == s.locks && s'.gc == s.gc && s'.found == s.found
    ensures SysInv(s')
  {
    hide CellInv, AskPath, GcFacts;
    BornInv(s.cells[t]);
    assert CellsInv(s');
    forall q | 0 <= q < |s'.cells| ensures LockFits(s'.locks, q, s'.cells[q].pc) {
      assert LockFits(s.locks, q, s.cells[q].pc);
    }
    if s.gc.GcAsk? { AskKept(s, s'); }
    GcFactsLast(s, s');
  }

  // ---------------------------------------------------------------- agents

  lemma AgentKeepsCells(s: System, s': System, t: nat, r: nat, ev: AEv)
    requires t < |s.cells| && |s'.cells| == |s.cells| && s'.cells == s.cells[t := s'.cells[t]]
    requires AgentNext(s.cells[t], s'.cells[t], r, ev) && CellsInv(s)
    ensures CellsInv(s') && s'.cells[t].pc == s.cells[t].pc
  {
    hide AgentEdge, CellInv;
    AgentKeepsCell(s.cells[t], s'.cells[t], r, ev);
  }

  lemma OtherAgentKeepsInv(s: System, s': System, t: nat, r: nat, ev: AEv)
    requires AgentStep(s, s', t, r, ev) && SysInv(s) && r != COLLECTOR
    ensures SysInv(s')
  {
    hide AgentNext, CellInv, AskPath, GcFacts, LockFits, Joining, Lasts;
    AgentKeepsCells(s, s', t, r, ev);
    AgentGrows(s, s', t, r, ev);
    assert forall q :: 0 <= q < |s.cells| ==> LockFits(s.locks, q, s.cells[q].pc);
    AgentKeepsErrand(s, s', t, r, ev);
    if s.gc.GcAsk? { AskKeptByOther(s, s', t, r, ev); }
    GcFactsLast(s, s');
  }

  lemma AgentGrows(s: System, s': System, t: nat, r: nat, ev: AEv)
    requires AgentStep(s, s', t, r, ev) && CellsInv(s)
    requires r == COLLECTOR ==> s.cells[t].ags[COLLECTOR].Act? && s.cells[t].ags[COLLECTOR].j.kind != Unblock
    ensures Grows(s, s') && s'.registry == s.registry && s'.cells[t].started == s.cells[t].started
  {
    hide AgentEdge, CellInv;
    AgentLasts(s.cells[t], s'.cells[t], r, ev);
  }

  lemma AgentKeepsErrand(s: System, s': System, t: nat, r: nat, ev: AEv)
    requires AgentStep(s, s', t, r, ev) && ErrandInv(s) && r != COLLECTOR
    ensures ErrandInv(s')
  {
    hide AgentEdge;
    assert forall q :: 0 <= q < |s.cells| ==> CollectorAt(s.cells[q], q, CurrentErrand(s.gc));
  }

  lemma AskKeptByOther(s: System, s': System, t: nat, r: nat, ev: AEv)
    requires AgentStep(s, s', t, r, ev) && r != COLLECTOR && Grows(s, s') && GcFacts(s) && s.gc.GcAsk?
    ensures s.gc.i < |s.gc.list| && AskPath(s', s.gc.list[s.gc.i], s.gc.seen)
  {
    hide AgentEdge, AskPath;
    AskPathLastsFor(s, s', s.gc.list[s.gc.i], s.gc.seen);
  }

  lemma AskPathLastsFor(s: System, s': System, t: nat, n: nat)
    requires Grows(s, s') && s'.registry == s.registry && AskPath(s, t, n)
    requires t < |s.cells| ==>
      |s'.cells[t].ags| == |s.cells[t].ags|
        && (COLLECTOR < |s.cells[t].ags| ==> s'.cells[t].ags[COLLECTOR] == s.cells[t].ags[COLLECTOR])
    ensures AskPath(s', t, n)
  {
  }

  /** The collector passes through a settled thread without having to wait for it. */
  lemma SettledStep(s: Shared, act: Action, at: AtPc, p: AtPc)
    requires AgentEdge(s, RetainJob, at, act, p) && SettledPath(s, at)
    ensures SettledPath(Do(s, Agent(COLLECTOR), act), p)
  {
  }

  lemma CollectorActs(s: System, s': System, t: nat, ev: AEv)
    requires AgentStep(s, s', t, COLLECTOR, ev) && SysInv(s)
    ensures SysInv(s')
  {
    hide AgentEdge, CellInv, AskPath, Joining, LockFits;
    AgentKeepsCells(s, s', t, COLLECTOR, ev);
    assert forall q :: 0 <= q < |s.cells| ==> CollectorAt(s.cells[q], q, CurrentErrand(s.gc));
    assert forall q :: 0 <= q < |s.cells| ==> LockFits(s.locks, q, s.cells[q].pc);
    if !s.gc.UnBlock? {
      AgentGrows(s, s', t, COLLECTOR, ev);
      if s.gc.GcAsk? { AskPathActs(s, s', t, ev); }
      GcFactsLast(s, s');
    }
  }

  lemma AskPathActs(s: System, s': System, t: nat, ev: AEv)
    requires AgentStep(s, s', t, COLLECTOR, ev) && Grows(s, s')
    requires s.gc.GcAsk? && s.gc.i < |s.gc.list| && s.gc.list[s.gc.i] == t && AskPath(s, t, s.gc.seen)
    requires s.cells[t].ags[COLLECTOR].Act? ==> s.cells[t].ags[COLLECTOR].j == RetainJob
    ensures AskPath(s', t, s.gc.seen)
  {
    hide AgentEdge;
    var c := s.cells[t];
    if t !in s.found.ever && IsMutator(c) && t in s.registry[..s.gc.seen] {
      SettledStep(c.sh, ev.act, c.ags[COLLECTOR].at, ev.p);
    }
  }
}

/** Threads that queue on the registry, which the collector holds while it waits for threads. */
module RegistryQueue {
  import opened MonitorDiscipline
  import opened Options
  import opened RequestFacts
  import opened StopTheWorld
  import opened System
  import opened SystemInvariant
  import opened ThreadCell
  import opened ThreadProgram

  predicate QueuedOnRegistry(p: OPc) {
    p == Bt(BSweep) || (p.Rg? && p.g == GQueued)
  }

  // ---------------------------------------------------------------- who is registered early

  /** `main` has registered the thread before the first `i` steps were over. */
  ghost predicate RegisteredByMain(labels: seq<Label>, i: nat, t: nat) {
    exists j :: 0 <= j < i && j < |labels| && labels[j] == LMain(t)
  }

  lemma JoiningComesFrom(s: System, s': System, l: Label, t: nat)
    requires SysInv(s) && Next(s, s', l) && t in s'.registry && t < |s'.cells| && Joining(s'.cells[t].pc)
    ensures l == LMain(t) || (t in s.registry && t < |s.cells| && Joining(s.cells[t].pc))
  {
    hide OwnerEdge, AgentNext, CollectorStep, CellInv, GcFacts;
    match l
    case LThread(q, act) => JoiningEdges(s.cells[q].sh, s.cells[q].pc, act, s'.cells[q].pc);
    case LAgent(q, r, ev) => AgentKeepsPc(s.cells[q], s'.cells[q], r, ev);
    case LCollector(res) =>
      CollectorKeepsShared(s, s', res);
      CollectorKeepsRegistry(s, s', res);
    case _ =>
  }

  lemma CollectorKeepsRegistry(s: System, s': System, res: Res)
    requires CollectorStep(s, s', res)
    ensures s'.registry == s.registry
  {
    hide AgentNext, Select;
  }

  /** A thread that is registered while it is still on its way to register itself is the one that
      `main` has registered. */
  lemma {:induction false} EarlyIsMain(run: seq<System>, labels: seq<Label>, i: nat, t: nat)
    requires IsRun(run, labels) && i < |run| && t in run[i].registry && t < |run[i].cells|
    requires Joining(run[i].cells[t].pc)
    ensures RegisteredByMain(labels, i, t)
  {
    hide Next, SysInv, Joining;
    if i > 0 {
      RunInv(run, labels, i - 1);
      JoiningComesFrom(run[i - 1], run[i], labels[i - 1], t);
      if labels[i - 1] != LMain(t) { EarlyIsMain(run, labels, i - 1, t); }
    }
  }

  /** A registered thread that queues on the registry can be stopped there, because it is in native
      state and nobody sleeps waiting for it, exactly if it is not in `process_about_to_terminate`,
      which takes the registry in managed state; and there it can only be `main`. */
  lemma RegistryQueueIsStoppable(run: seq<System>, labels: seq<Label>, i: nat, k: nat)
    requires IsRun(run, labels) && i < |run| && k < |run[i].registry| && run[i].registry[k] < |run[i].cells|
    requires QueuedOnRegistry(run[i].cells[run[i].registry[k]].pc)
    ensures var t := run[i].registry[k];
            var c := run[i].cells[t];
            && run[i].regHolder != Some(RegThread(t)) && RegisteredByMain(labels, i, t)
            && ((c.sh.status == InNative || c.sh.status == BlockedInNative) <==> c.pc != Bt(BSweep))
            && (c.pc != Bt(BSweep) && c.sh.holder == None ==> forall r :: 0 <= r < |c.ags| ==> Agent(r) !in c.sh.asleep)
  {
    RunInv(run, labels, i);
    var t := run[i].registry[k];
    var c := run[i].cells[t];
    assert CellInv(c);
    RegistryQueue(c);
    EarlyIsMain(run, labels, i, t);
    if c.sh.holder == None { NoLostWakeup(run, labels, i, t); }
  }

  lemma RegistryQueue(c: Cell)
    requires CellInv(c) && QueuedOnRegistry(c.pc)
    ensures Joining(c.pc) && !HoldsRegistry(c.pc)
    ensures c.pc == Rg(true, GQueued) ==> c.sh.status == InNative || c.sh.status == BlockedInNative
    ensures c.pc == Rg(false, GQueued) ==> c.sh.status == New && !c.started
    ensures c.pc == Bt(BSweep) ==> c.sh.status != InNative && c.sh.status != BlockedInNative
  {
  }

  // ---------------------------------------------------------------- the deadlock lasts

  /** The collector holds the registry and waits for a thread that waits for the registry. */
  predicate RegistryDeadlock(s: System) {
    && s.regHolder == Some(RegCollector) && s.gc.GcBlock? && s.gc.t < |s.cells|
    && var c := s.cells[s.gc.t];
       && c.pc == Bt(BSweep) && MustWait(c.sh, GC) && c.sh.status == InManagedToBlock
       && COLLECTOR < |c.ags| && (c.ags[COLLECTOR] == Act(StopJob, Sleep) || c.ags[COLLECTOR] == Act(StopJob, Check))
  }

  /** What requests can do to a thread that waits to be blocked. */
  lemma AgentKeepsDeadlock(c: Cell, c': Cell, r: nat, ev: AEv)
    requires AgentNext(c, c', r, ev) && CellInv(c) && MustWait(c.sh, GC) && c.sh.status == InManagedToBlock
    requires c.ags[COLLECTOR] == Act(StopJob, Sleep) || c.ags[COLLECTOR] == Act(StopJob, Check)
    requires r == COLLECTOR ==> ev.Step?
    ensures MustWait(c'.sh, GC) && c'.sh.status == InManagedToBlock && c'.pc == c.pc && COLLECTOR < |c'.ags|
    ensures c'.ags[COLLECTOR] == Act(StopJob, Sleep) || c'.ags[COLLECTOR] == Act(StopJob, Check)
  {
    hide AgentEdge, OwnerInv;
    assert AgentInv(c, r);
    if ev.Step? { RequestKeepsDeadlock(|c.sh.req|, c.sh, r, c.ags[r].j, c.ags[r].at, ev.act, ev.p); }
  }

  lemma RequestKeepsDeadlock(n: nat, s: Shared, r: nat, j: Job, at: AtPc, act: Action, p: AtPc)
    requires AgentEdge(s, j, at, act, p) && Saw(s, at) && AtFits(j, at) && JobOk(n, r, j)
    requires MustWait(s, GC) && s.status == InManagedToBlock
    requires r == COLLECTOR ==> j == StopJob && (at == Sleep || at == Check)
    ensures MustWait(Do(s, Agent(r), act), GC) && Do(s, Agent(r), act).status == InManagedToBlock
    ensures r == COLLECTOR ==> p == Sleep || p == Check
  {
  }

  /** No step of any thread, requester or of the collector ends it. */
  lemma DeadlockLasts(s: System, s': System, l: Label)
    requires SysInv(s) && RegistryDeadlock(s) && Next(s, s', l)
    ensures RegistryDeadlock(s')
  {
    hide CellInv, OwnerEdge, AgentNext, GcFacts, MustWait;
    var t := s.gc.t;
    match l
    case LAgent(q, r, ev) => if q == t { AgentKeepsDeadlock(s.cells[t], s'.cells[t], r, ev); }
    case LCollector(res) => CollectorWaits(s, s', res);
    case _ =>
  }

  lemma CollectorWaits(s: System, s': System, res: Res)
    requires RegistryDeadlock(s)
    ensures !CollectorStep(s, s', res)
  {
  }

  /** Once there, for ever. */
  lemma {:induction false} DeadlockForEver(run: seq<System>, labels: seq<Label>, i: nat, j: nat)
    requires IsRun(run, labels) && i <= j < |run| && RegistryDeadlock(run[i])
    ensures RegistryDeadlock(run[j])
    decreases j
  {
    hide Next, SysInv, RegistryDeadlock;
    if i < j {
      DeadlockForEver(run, labels, i, j - 1);
      RunInv(run, labels, j - 1);
      DeadlockLasts(run[j - 1], run[j], labels[j - 1]);
    }
  }

  /** And it is all it takes: `main` asked to stop while it waits for the registry. */
  lemma AskedWhileQueued(run: seq<System>, labels: seq<Label>, i: nat)
    requires IsRun(run, labels) && i < |run| && run[i].gc.GcBlock? && run[i].gc.t < |run[i].cells|
    requires var c := run[i].cells[run[i].gc.t];
             && c.pc == Bt(BSweep) && COLLECTOR < |c.ags| && c.ags[COLLECTOR].Act?
             && (c.ags[COLLECTOR].at == Sleep || c.ags[COLLECTOR].at == Check) && c.sh.status == InManagedToBlock
    ensures RegistryDeadlock(run[i])
  {
    RunInv(run, labels, i);
    var c := run[i].cells[run[i].gc.t];
    assert CollectorAt(c, run[i].gc.t, CurrentErrand(run[i].gc));
    QueuedMustWait(c);
  }

  lemma QueuedMustWait(c: Cell)
    requires CellInv(c) && c.pc == Bt(BSweep) && c.ags[COLLECTOR].Act? && c.ags[COLLECTOR].j == StopJob
    requires c.ags[COLLECTOR].at == Sleep || c.ags[COLLECTOR].at == Check
    ensures MustWait(c.sh, GC)
  {
    assert HolderAct(c).Act? ==> AgentInv(c, c.sh.holder.value.id);
  }
}

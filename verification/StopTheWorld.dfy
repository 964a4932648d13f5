/** What the handshake guarantees in every state of every run. */
module StopTheWorld {
  import opened CollectorSteps
  import opened MonitorDiscipline
  import opened Options
  import opened RequestFacts
  import opened StopFacts
  import opened System
  import opened SystemInvariant
  import opened SystemSteps
  import opened ThreadCell
  import opened ThreadProgram
  import opened WakeFacts

  // ---------------------------------------------------------------- the invariant holds throughout

  lemma FreshInv(c: Cell)
    requires Fresh(c)
    ensures CellInv(c)
  {
  }

  lemma InitInv(s: System)
    requires Init(s)
    ensures SysInv(s)
  {
    hide CellInv;
    forall t | 0 <= t < |s.cells| ensures CellInv(s.cells[t]) {
      FreshInv(s.cells[t]);
    }
  }

  lemma NextKeepsInv(s: System, s': System, l: Label)
    requires Next(s, s', l) && SysInv(s)
    ensures SysInv(s')
  {
    hide SysInv, ThreadStep, CollectorStep, AgentNext;
    match l
    case LThread(t, act) => ThreadKeepsInv(s, s', t, act);
    case LRelease(t, k) => ReleaseKeepsInv(s, s', t, k);
    case LBirth(t) => BirthKeepsInv(s, s', t);
    case LMain(t) => BirthKeepsInv(s, s', t);
    case LAgent(t, r, ev) =>
      if r == COLLECTOR { CollectorActs(s, s', t, ev); } else { OtherAgentKeepsInv(s, s', t, r, ev); }
    case LCollector(res) => CollectorKeepsInv(s, s', res);
  }

  lemma {:induction false} RunInv(run: seq<System>, labels: seq<Label>, i: nat)
    requires IsRun(run, labels) && i < |run|
    ensures SysInv(run[i])
  {
    hide SysInv, Next, Init;
    if i == 0 {
      InitInv(run[0]);
    } else {
      RunInv(run, labels, i - 1);
      assert Next(run[i - 1], run[i], labels[i - 1]);
      NextKeepsInv(run[i - 1], run[i], labels[i - 1]);
    }
  }

  // ---------------------------------------------------------------- stop safety

  /** A thread with a blocked flag set is not executing managed code. */
  lemma StopSafety(run: seq<System>, labels: seq<Label>, i: nat, t: nat, a: nat)
    requires IsRun(run, labels) && i < |run| && t < |run[i].cells|
    ensures Get(run[i].cells[t].sh.blk, a) ==> Parked(run[i].cells[t].pc) && !Executing(run[i].cells[t].pc)
  {
    RunInv(run, labels, i);
    assert CellInv(run[i].cells[t]);
  }

  lemma ReentryEdge(s: Shared, pc: OPc, act: Action, p: OPc)
    requires OwnerEdge(s, pc, act, p) && Parked(pc) && Executing(p)
    ensures Do(s, Owner, act).blk == s.blk
  {
    match pc
    case Cb(r, b) =>
    case En(e, n) =>
    case _ =>
  }

  /** A thread re-enters managed code only by its own step, and only while every adapter is clear. */
  lemma ReentryIsClear(run: seq<System>, labels: seq<Label>, i: nat, t: nat)
    requires IsRun(run, labels) && i < |labels| && t < |run[i].cells| == |run[i + 1].cells|
    requires Parked(run[i].cells[t].pc) && Executing(run[i + 1].cells[t].pc)
    ensures labels[i].LThread? && labels[i].t == t
    ensures !AnyBlocked(run[i].cells[t].sh) && !AnyBlocked(run[i + 1].cells[t].sh)
  {
    hide Parked, Executing, CellInv, OwnerEdge, Next, SysInv, Touches;
    RunInv(run, labels, i + 1);
    CellInvAt(run[i + 1], t);
    assert Next(run[i], run[i + 1], labels[i]);
    var c, c' := run[i].cells[t], run[i + 1].cells[t];
    ParkedIsNotExecuting(c.pc);
    OnlyOwnerMoves(run[i], run[i + 1], labels[i], t);
    ReentryEdge(c.sh, c.pc, labels[i].act, c'.pc);
    ExecutingIsClear(c');
  }

  lemma CellInvAt(s: System, t: nat)
    requires SysInv(s) && t < |s.cells|
    ensures CellInv(s.cells[t])
  {
  }

  lemma ParkedIsNotExecuting(p: OPc)
    ensures Parked(p) ==> !Executing(p) && p != Unborn
  {
  }

  lemma ExecutingIsClear(c: Cell)
    requires CellInv(c) && Executing(c.pc)
    ensures !AnyBlocked(c.sh)
  {
  }

  lemma OnlyOwnerMoves(s: System, s': System, l: Label, t: nat)
    requires Next(s, s', l) && t < |s.cells| == |s'.cells| && s.cells[t].pc != s'.cells[t].pc && s.cells[t].pc != Unborn
    ensures l.LThread? && l.t == t && OwnerNext(s.cells[t], s'.cells[t], l.act)
    ensures Touches(s, s', t, s.cells[t].pc, s'.cells[t].pc)
  {
    hide OwnerEdge, AgentNext, CollectorStep, Touches;
    match l
    case LAgent(q, r, ev) => AgentKeepsPc(s.cells[q], s'.cells[q], r, ev);
    case LCollector(res) => CollectorKeepsShared(s, s', res);
    case _ =>
  }

  lemma AgentKeepsPc(c: Cell, c': Cell, r: nat, ev: AEv)
    requires AgentNext(c, c', r, ev)
    ensures c'.pc == c.pc
  {
    hide AgentEdge;
  }

  // ---------------------------------------------------------------- no lost stop request

  /** A request that is pending while the thread is outside its critical sections, and that no agent
      is busy with, has marked the thread to block and its next yieldpoint to be taken. */
  lemma NoLostStopRequest(run: seq<System>, labels: seq<Label>, i: nat, t: nat, a: nat)
    requires IsRun(run, labels) && i < |run| && t < |run[i].cells|
    ensures var c := run[i].cells[t];
            Get(c.sh.req, a) && (c.started || c.sh.status != New) && !c.sh.about && ODepth(c.pc) == 0
              && !HolderBusy(c, a) ==>
              c.sh.status == InManagedToBlock && (c.sh.take != 0 || c.sh.pending)
  {
    RunInv(run, labels, i);
    var c := run[i].cells[t];
    assert CellInv(c);
    if a < |c.sh.req| { assert ReqOk(c.sh, c.pc, a, HolderBusy(c, a)); }
  }

  // ---------------------------------------------------------------- no lost wakeup

  /** Whenever the monitor is free, a thread asleep without having been notified is blocked and has
      acknowledged every request, and a requester asleep without having been notified must wait. */
  lemma NoLostWakeup(run: seq<System>, labels: seq<Label>, i: nat, t: nat)
    requires IsRun(run, labels) && i < |run| && t < |run[i].cells| && run[i].cells[t].sh.holder == None
    ensures var c := run[i].cells[t];
            && (Owner in c.sh.asleep ==> c.pc.Cb? && c.pc.b == CSleep && AnyBlocked(c.sh) && NoRequest(c.sh))
            && (forall r :: 0 <= r < |c.ags| && Agent(r) in c.sh.asleep ==>
                  c.ags[r].Act? && c.ags[r].at == Sleep && MustWait(c.sh, c.ags[r].j.ad)
                    && c.sh.status == InManagedToBlock)
  {
    RunInv(run, labels, i);
    var c := run[i].cells[t];
    assert CellInv(c);
    OwnerCallsInside(c.sh, c.pc);
    forall r | 0 <= r < |c.ags| && Agent(r) in c.sh.asleep
      ensures c.ags[r].Act? && c.ags[r].at == Sleep && MustWait(c.sh, c.ags[r].j.ad) && c.sh.status == InManagedToBlock
    {
      assert AgentInv(c, r);
    }
  }

  // ---------------------------------------------------------------- stop the world

  /** From the moment `block_all_mutators_for_gc` returns until `unblock_all_mutators_for_gc` begins,
      no mutator of the final snapshot executes managed code, but those that the last request found
      `New`: each is blocked for GC and in the returned list, or about to terminate. */
  lemma WorldIsStopped(run: seq<System>, labels: seq<Label>, i: nat, k: nat)
    requires IsRun(run, labels) && i < |run| && run[i].gc.GcStopped? && k < run[i].gc.seen
    ensures k < |run[i].registry| && run[i].registry[k] < |run[i].cells|
    ensures var t := run[i].registry[k];
            var c := run[i].cells[t];
            IsMutator(c) && t !in run[i].found.last ==>
              && !Executing(c.pc)
              && ((Get(c.sh.blk, GC) && t in run[i].gc.result) || (c.sh.about && Terminating(c.pc)))
    ensures run[i].registry[k] in run[i].found.last ==> !run[i].cells[run[i].registry[k]].started
  {
    RunInv(run, labels, i);
    var s := run[i];
    assert SeenSettled(s, s.gc.seen);
    var t := s.registry[k];
    assert CellInv(s.cells[t]);
    if IsMutator(s.cells[t]) { assert SettledAt(s, s.registry[k]); }
  }

  /** Every thread in the returned list is blocked for GC. */
  lemma ReturnedAreBlocked(run: seq<System>, labels: seq<Label>, i: nat, t: nat)
    requires IsRun(run, labels) && i < |run| && run[i].gc.GcStopped? && t in run[i].gc.result
    ensures t < |run[i].cells| && Get(run[i].cells[t].sh.blk, GC) && Parked(run[i].cells[t].pc)
  {
    RunInv(run, labels, i);
    assert CellInv(run[i].cells[t]);
  }

  /** Until `unblock_all_mutators_for_gc` begins, the snapshot, the returned list and the record of
      who was found `New` are those of the return. */
  lemma {:induction false} StopLasts(run: seq<System>, labels: seq<Label>, i: nat, j: nat)
    requires IsRun(run, labels) && i <= j < |run| && run[i].gc.GcStopped?
    requires forall k :: i <= k <= j ==> run[k].gc != UnLock
    ensures run[j].gc == run[i].gc && run[j].found == run[i].found
    decreases j
  {
    if i < j {
      StopLasts(run, labels, i, j - 1);
      assert Next(run[j - 1], run[j], labels[j - 1]);
    }
  }

  // ---------------------------------------------------------------- the fixpoint

  /** A pass keeps on its list only threads that have registered since the previous one, and threads
      that some request found `New`.  Without new registrations and without threads that were left
      `New` it keeps nobody, so the loop exits by its second pass. */
  lemma SecondPassFindsNobody(run: seq<System>, labels: seq<Label>, i: nat)
    requires IsRun(run, labels) && i < |run| && run[i].gc.GcTest?
    ensures run[i].gc.seen <= |run[i].registry|
    ensures forall t :: t in run[i].gc.kept ==>
              t in run[i].registry && (t !in run[i].registry[..run[i].gc.seen] || t in run[i].found.ever)
    ensures run[i].gc.seen == |run[i].registry| && run[i].found.ever == {} ==> run[i].gc.kept == []
  {
    RunInv(run, labels, i);
    var s := run[i];
    assert s.registry[..|s.registry|] == s.registry;
    EmptyOrMember(s.gc.kept);
  }

  lemma EmptyOrMember(list: seq<nat>)
    ensures list == [] || exists t :: t in list
  {
    if list != [] { assert list[0] in list; }
  }

  /** A synchronous request of the collector leaves its target blocked or about to terminate, unless
      it finds a thread that was never started. */
  lemma SynchronousBlockSettles(run: seq<System>, labels: seq<Label>, i: nat, res: Res)
    requires IsRun(run, labels) && i < |run| && run[i].gc.GcBlock?
    requires run[i].gc.t < |run[i].cells| && COLLECTOR < |run[i].cells[run[i].gc.t].ags|
    requires run[i].cells[run[i].gc.t].ags[COLLECTOR] == Act(StopJob, Done(res))
    ensures StoppedForGc(run[i].cells[run[i].gc.t].sh) || (res == State(New) && !run[i].cells[run[i].gc.t].started)
  {
    RunInv(run, labels, i);
    ErrandOutcome(run[i], run[i].gc.t, StopJob, res);
  }

  // ---------------------------------------------------------------- lock_with_handshake

  /** A thread queued on a lock is in native state and does not hold it, and neither does a thread
      that stops on its way to queue again; so stopping it needs neither the thread nor the lock:
      no requester sleeps on it. */
  lemma QueuedThreadIsStoppable(run: seq<System>, labels: seq<Label>, i: nat, t: nat, l: nat)
    requires IsRun(run, labels) && i < |run| && t < |run[i].cells|
    requires run[i].cells[t].pc == Hl(l, HQueued)
             || (run[i].cells[t].pc.Cb? && run[i].cells[t].pc.ret == FromNative(IntoRelock(l)))
    ensures l < |run[i].locks| && run[i].locks[l] != Some(t)
    ensures var c := run[i].cells[t];
            && (c.pc.Hl? ==> c.sh.status == InNative || c.sh.status == BlockedInNative)
            && (c.sh.holder == None ==> forall r :: 0 <= r < |c.ags| ==> Agent(r) !in c.sh.asleep)
  {
    RunInv(run, labels, i);
    var c := run[i].cells[t];
    assert CellInv(c) && LockFits(run[i].locks, t, c.pc);
    if c.sh.holder == None {
      NoLostWakeup(run, labels, i, t);
      QueuedStatus(c, l);
    }
  }

  lemma QueuedStatus(c: Cell, l: nat)
    requires CellInv(c) && (c.pc == Hl(l, HQueued) || (c.pc.Cb? && c.pc.ret == FromNative(IntoRelock(l))))
    requires c.sh.holder == None
    ensures c.sh.status != InManagedToBlock
  {
  }

  /** `lock_with_handshake` returns to managed code only holding the lock, by the thread's own
      compare-and-swap from `InNative` to `InManaged`. */
  lemma HandshakeLockReturns(run: seq<System>, labels: seq<Label>, i: nat, t: nat)
    requires IsRun(run, labels) && i < |labels| && t < |run[i].cells| == |run[i + 1].cells|
    requires run[i].cells[t].pc.Hl? && run[i + 1].cells[t].pc == Run
    ensures labels[i] == LThread(t, StoreStatus(InManaged))
    ensures run[i].cells[t].sh.status == InNative && run[i + 1].cells[t].sh.status == InManaged
    ensures var l := run[i].cells[t].pc.l; l < |run[i + 1].locks| && run[i + 1].locks[l] == Some(t)
  {
    RunInv(run, labels, i);
    assert Next(run[i], run[i + 1], labels[i]);
    OnlyOwnerMoves(run[i], run[i + 1], labels[i], t);
    assert LockFits(run[i].locks, t, run[i].cells[t].pc);
  }

  // ---------------------------------------------------------------- the exception

  /** A thread leaves the worklist of a pass stopped, unless the collector found it `New`; threads
      created by `start` or `main` are never `New` once they are registered. */
  lemma LeavesStoppedUnlessNew(run: seq<System>, labels: seq<Label>, i: nat, res: Res)
    requires IsRun(run, labels) && i < |run| && run[i].gc.GcAsk? && run[i].gc.i < |run[i].gc.list|
    requires run[i].gc.list[run[i].gc.i] < |run[i].cells|
    ensures var c := run[i].cells[run[i].gc.list[run[i].gc.i]];
            COLLECTOR < |c.ags| && (c.ags[COLLECTOR] == Act(RetainJob, Done(res)) && Leaves(res) ==>
              (StoppedForGc(c.sh) || res == State(New)) && (c.started ==> StoppedForGc(c.sh)))
  {
    RunInv(run, labels, i);
    assert CellInv(run[i].cells[run[i].gc.list[run[i].gc.i]]);
  }

  /** And conversely: when the collector gives the monitor of a thread up that is to leave the
      worklist, the thread is stopped exactly if the request did not find it `New`. */
  lemma StoppedExactlyUnlessNew(run: seq<System>, labels: seq<Label>, i: nat, t: nat, res: Res)
    requires IsRun(run, labels) && i < |run| && t < |run[i].cells| && COLLECTOR < |run[i].cells[t].ags|
    requires run[i].cells[t].ags[COLLECTOR] == Act(RetainJob, OuterUnlock(res)) && Leaves(res)
    ensures StoppedForGc(run[i].cells[t].sh) <==> res != State(New)
    ensures run[i].cells[t].sh.holder == Some(Agent(COLLECTOR))
    ensures res == State(New) ==> run[i].cells[t].sh.status == New
  {
    RunInv(run, labels, i);
    assert CellInv(run[i].cells[t]);
    assert AgentInv(run[i].cells[t], COLLECTOR);
  }

  /** The thread is `New`, and neither blocked for GC nor about to terminate. */
  predicate Escapes(s: Shared) {
    s.status == New && !StoppedForGc(s)
  }

  /** The collector holds the thread's monitor for a stop request of a pass. */
  predicate HeldForRequest(s: System, t: nat) {
    && t < |s.cells| && COLLECTOR < |s.cells[t].ags| && s.cells[t].ags[COLLECTOR].Act?
    && s.cells[t].ags[COLLECTOR].j == RetainJob && ADepth(RetainJob, s.cells[t].ags[COLLECTOR].at) > 0
  }

  lemma OwnerKeepsEscape(c: Cell, c': Cell, act: Action)
    requires OwnerNext(c, c', act) && CellInv(c) && c.sh.holder == Some(Agent(COLLECTOR))
    ensures Escapes(c'.sh) == Escapes(c.sh)
  {
    hide OwnerEdge;
    OwnerUnlocked(c.sh, c.pc, act, c'.pc);
  }

  lemma AgentKeepsEscape(c: Cell, c': Cell, r: nat, ev: AEv)
    requires AgentNext(c, c', r, ev) && CellInv(c) && c.sh.holder == Some(Agent(COLLECTOR))
    requires c.ags[COLLECTOR].Act? && c.ags[COLLECTOR].j == RetainJob
    ensures Escapes(c'.sh) == Escapes(c.sh)
  {
    hide AgentEdge, OwnerInv;
    if ev.Step? {
      assert AgentInv(c, r);
      AgentIsAlone(c, r, ev.act, ev.p);
      RequestKeepsEscape(c.sh, c.ags[COLLECTOR].at, ev.act, ev.p);
    }
  }

  lemma AgentIsAlone(c: Cell, r: nat, act: Action, p: AtPc)
    requires CellInv(c) && c.sh.holder == Some(Agent(COLLECTOR)) && r < |c.ags| && c.ags[r].Act?
    requires AgentEdge(c.sh, c.ags[r].j, c.ags[r].at, act, p) && Enabled(c.sh, Agent(r), act)
    ensures r == COLLECTOR
  {
    assert AgentInv(c, r);
    AgentAlone(c, r, act, p);
  }

  lemma RequestKeepsEscape(s: Shared, at: AtPc, act: Action, p: AtPc)
    requires AgentEdge(s, RetainJob, at, act, p) && Saw(s, at) && AtFits(RetainJob, at)
    ensures Escapes(Do(s, Agent(COLLECTOR), act)) == Escapes(s)
  {
  }

  lemma NextKeepsEscape(s: System, s': System, l: Label, t: nat)
    requires SysInv(s) && Next(s, s', l) && HeldForRequest(s, t) && t < |s'.cells|
    ensures Escapes(s'.cells[t].sh) == Escapes(s.cells[t].sh)
  {
    hide CellInv, OwnerNext, AgentNext, CollectorStep, Escapes, Touches, GcFacts;
    var c := s.cells[t];
    HeldByCollector(c);
    match l
    case LThread(q, act) => if q == t { OwnerKeepsEscape(c, s'.cells[t], act); }
    case LAgent(q, r, ev) => if q == t { AgentKeepsEscape(c, s'.cells[t], r, ev); }
    case LCollector(res) => CollectorKeepsShared(s, s', res);
    case _ =>
  }

  lemma HeldByCollector(c: Cell)
    requires CellInv(c) && c.ags[COLLECTOR].Act? && ADepth(c.ags[COLLECTOR].j, c.ags[COLLECTOR].at) > 0
    ensures c.sh.holder == Some(Agent(COLLECTOR)) && c.pc != Unborn
  {
    assert AgentInv(c, COLLECTOR);
  }

  /** The collector's own steps begin and end errands. */
  lemma CollectorKeepsShared(s: System, s': System, res: Res)
    requires CollectorStep(s, s', res)
    ensures |s'.cells| == |s.cells|
    ensures forall q :: 0 <= q < |s.cells| ==> s'.cells[q].sh == s.cells[q].sh && s'.cells[q].pc == s.cells[q].pc
  {
    hide BlockAllStep, UnblockAllStep;
    if BlockAllStep(s, s', res) {
      BlockAllKeepsShared(s, s', res);
    } else if UnblockAllStep(s, s', res) {
      UnblockAllKeepsShared(s, s', res);
    }
  }

  lemma BlockAllKeepsShared(s: System, s': System, res: Res)
    requires BlockAllStep(s, s', res)
    ensures |s'.cells| == |s.cells|
    ensures forall q :: 0 <= q < |s.cells| ==> s'.cells[q].sh == s.cells[q].sh && s'.cells[q].pc == s.cells[q].pc
  {
    hide AgentNext, Select;
    match s.gc
    case GcRetain(list, i, _, _) => if i < |list| { AsksFrame(s, s', list[i], Begin(RetainJob)); }
    case GcAsk(list, i, _, _) => AsksFrame(s, s', list[i], End(RetainJob, res));
    case GcPop(work, _) => if work != [] { AsksFrame(s, s', work[|work| - 1], Begin(StopJob)); }
    case GcBlock(_, q, _) => AsksFrame(s, s', q, End(StopJob, res));
    case _ =>
  }

  lemma UnblockAllKeepsShared(s: System, s': System, res: Res)
    requires UnblockAllStep(s, s', res)
    ensures |s'.cells| == |s.cells|
    ensures forall q :: 0 <= q < |s.cells| ==> s'.cells[q].sh == s.cells[q].sh && s'.cells[q].pc == s.cells[q].pc
  {
    hide AgentNext, Select;
    match s.gc
    case UnPop(work) => if work != [] { AsksFrame(s, s', work[|work| - 1], Begin(ResumeJob)); }
    case UnBlock(_, q) => AsksFrame(s, s', q, End(ResumeJob, res));
    case _ =>
  }

  lemma {:induction false} EscapeIsDecided(run: seq<System>, labels: seq<Label>, i: nat, j: nat, t: nat)
    requires IsRun(run, labels) && i <= j < |run| && HeldForRequest(run[i], t) && HeldForRequest(run[j], t)
    requires forall k :: i <= k <= j ==> HeldForRequest(run[k], t)
    ensures Escapes(run[j].cells[t].sh) == Escapes(run[i].cells[t].sh)
    decreases j
  {
    hide Next, Escapes, SysInv;
    if i < j {
      assert HeldForRequest(run[j - 1], t);
      EscapeIsDecided(run, labels, i, j - 1, t);
      RunInv(run, labels, j - 1);
      NextKeepsEscape(run[j - 1], run[j], labels[j - 1], t);
    }
  }

  /** What the request will come to can be read off the thread beforehand, as soon as its monitor is
      held: one that leaves the worklist does so unstopped exactly if it was `New`, and neither blocked
      nor terminating, then. */
  lemma UnstoppedExactlyIfNew(run: seq<System>, labels: seq<Label>, i: nat, j: nat, t: nat, res: Res)
    requires IsRun(run, labels) && i <= j < |run| && HeldForRequest(run[i], t) && HeldForRequest(run[j], t)
    requires forall k :: i <= k <= j ==> HeldForRequest(run[k], t)
    requires run[j].cells[t].ags[COLLECTOR] == Act(RetainJob, OuterUnlock(res)) && Leaves(res)
    ensures StoppedForGc(run[j].cells[t].sh) <==> !Escapes(run[i].cells[t].sh)
  {
    EscapeIsDecided(run, labels, i, j, t);
    StoppedExactlyUnlessNew(run, labels, j, t, res);
  }
}

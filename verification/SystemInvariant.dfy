/** What every step of the whole system keeps. */
module SystemInvariant {
  import opened MonitorDiscipline
  import opened Options
  import opened System
  import opened ThreadCell
  import opened ThreadProgram
  import opened WakeFacts

  // ---------------------------------------------------------------- cells

  predicate CellsInv(s: System) {
    forall t :: 0 <= t < |s.cells| ==> CellInv(s.cells[t])
  }

  // ---------------------------------------------------------------- registry

  predicate HoldsRegistry(p: OPc) {
    (p.Rg? && p.g != GQueued) || p == Bt(BSwept)
  }

  predicate CollectorHolds(gc: GcPc) {
    !gc.GcIdle? && !gc.GcLock? && !gc.GcRelock? && !gc.GcStopped? && !gc.UnLock?
  }

  predicate RegistryInv(s: System) {
    && (forall k :: 0 <= k < |s.registry| ==> s.registry[k] < |s.cells| && s.cells[s.registry[k]].pc != Unborn)
    && (forall t :: 0 <= t < |s.cells| ==> (HoldsRegistry(s.cells[t].pc) <==> s.regHolder == Some(RegThread(t))))
    && (CollectorHolds(s.gc) <==> s.regHolder == Some(RegCollector))
    && (s.regHolder.Some? && s.regHolder.value.RegThread? ==> s.regHolder.value.t < |s.cells|)
    && (forall k :: 0 <= k < |s.registry| && s.registry[k] < |s.cells| && Joining(s.cells[s.registry[k]].pc) ==>
          s.cells[s.registry[k]].started)
  }

  /** On the way to its own registration.  Only `main` is registered before that. */
  predicate Joining(p: OPc) {
    || p.Bt? || (p.Ey? && p.boot) || (p.En? && p.e.IntoRegistry?)
    || (p.Rg? && p.g != GUnlock)
  }

  // ---------------------------------------------------------------- locks of lock_with_handshake

  /** The lock the thread is trying to take and does not hold. */
  function Wanted(p: OPc): Option<nat> {
    match p
    case En(IntoQueue(l), _) => Some(l)
    case Hl(l, HQueued) => Some(l)
    case Ln(IntoRelock(l), _) => Some(l)
    case Cb(FromNative(IntoRelock(l)), _) => Some(l)
    case _ => None
  }

  /** The lock the thread has just taken while it is still in native state. */
  function Taken(p: OPc): Option<nat> {
    if p.Hl? && p.h != HQueued then Some(p.l) else None
  }

  predicate LockFits(locks: seq<Option<nat>>, t: nat, p: OPc) {
    && (Wanted(p).Some? ==> Wanted(p).value < |locks| && locks[Wanted(p).value] != Some(t))
    && (Taken(p).Some? ==> Taken(p).value < |locks| && locks[Taken(p).value] == Some(t))
  }

  predicate LocksInv(s: System) {
    forall t :: 0 <= t < |s.cells| ==> LockFits(s.locks, t, s.cells[t].pc)
  }

  /** Only `lock_with_handshake` starts to want a lock or takes one. */
  lemma LockEdges(s: Shared, pc: OPc, act: Action, p: OPc)
    requires OwnerEdge(s, pc, act, p)
    ensures !(pc == Run && p.En? && p.e.IntoQueue?) && !(pc.Hl? && (pc.h == HQueued || pc.h == HDrop)) ==>
              (Wanted(p) == Wanted(pc) || Wanted(p) == None) && (Taken(p) == Taken(pc) || Taken(p) == None)
    ensures pc.Hl? && pc.h == HQueued ==> Wanted(p) == None && Taken(p) == Some(pc.l)
    ensures pc.Hl? && pc.h == HDrop ==> Wanted(p) == Some(pc.l) && Taken(p) == None
    ensures pc == Run ==> Taken(p) == None
  {
    hide CheckBlockEdge, EnterEdge;
    match pc
    case Cb(r, b) => CheckBlockLock(s, r, b, act, p);
    case En(e, n) => EnterLock(s, e, n, act, p);
    case Run =>
    case _ =>
  }

  lemma CheckBlockLock(s: Shared, r: Ret, b: CbPc, act: Action, p: OPc)
    requires CheckBlockEdge(s, r, b, act, p)
    ensures (Wanted(p) == Wanted(Cb(r, b)) || Wanted(p) == None) && Taken(p) == None
  {
  }

  lemma EnterLock(s: Shared, e: Enter, n: EnPc, act: Action, p: OPc)
    requires EnterEdge(s, e, n, act, p)
    ensures (Wanted(p) == Wanted(En(e, n)) || Wanted(p) == None) && Taken(p) == None
  {
  }

  /** Only `add_thread` takes the registry. */
  lemma RegistryEdges(s: Shared, pc: OPc, act: Action, p: OPc)
    requires OwnerEdge(s, pc, act, p)
    ensures HoldsRegistry(p) ==> pc.Rg? || pc == Bt(BSweep)
    ensures pc == Bt(BSweep) ==> HoldsRegistry(p)
    ensures pc == Bt(BSwept) ==> !HoldsRegistry(p)
    ensures pc.Rg? && pc.g == GQueued ==> HoldsRegistry(p)
    ensures pc.Rg? && pc.g == GPush ==> HoldsRegistry(p)
    ensures pc.Rg? && pc.g == GUnlock ==> !HoldsRegistry(p)
  {
  }

  lemma JoiningEdges(s: Shared, pc: OPc, act: Action, p: OPc)
    requires OwnerEdge(s, pc, act, p)
    ensures Joining(p) ==> Joining(pc) && !(pc.Rg? && pc.g == GPush)
  {
  }

  // ---------------------------------------------------------------- the collector

  /** The thread the collector is dealing with, and what it asks of it. */
  datatype Errand = NoErrand | Errand(t: nat, job: Job)

  function CurrentErrand(gc: GcPc): Errand {
    match gc
    case GcAsk(list, i, _, _) => if i < |list| then Errand(list[i], RetainJob) else NoErrand
    case GcBlock(_, t, _) => Errand(t, StopJob)
    case UnBlock(_, t) => Errand(t, ResumeJob)
    case _ => NoErrand
  }

  predicate CollectorAt(c: Cell, t: nat, e: Errand) {
    COLLECTOR < |c.ags| &&
    if e.Errand? && e.t == t then c.ags[COLLECTOR].Act? && c.ags[COLLECTOR].j == e.job else c.ags[COLLECTOR] == Idle
  }

  predicate ErrandInv(s: System) {
    && (forall t :: 0 <= t < |s.cells| ==> CollectorAt(s.cells[t], t, CurrentErrand(s.gc)))
    && (CurrentErrand(s.gc).Errand? ==> CurrentErrand(s.gc).t < |s.cells|)
  }

  /** The thread is blocked for GC or about to terminate, unless the last request found it `New`. */
  predicate SettledAt(s: System, t: nat) {
    t < |s.cells| && (StoppedForGc(s.cells[t].sh) || t in s.found.last)
  }

  /** The same, unless any request did. */
  predicate AnsweredAt(s: System, t: nat) {
    t < |s.cells| && (StoppedForGc(s.cells[t].sh) || t in s.found.ever)
  }

  /** Threads that `start` or `main` created are never found `New`. */
  predicate FoundInv(s: System) {
    && s.found.last <= s.found.ever
    && forall t :: t in s.found.ever ==> t < |s.cells| && !s.cells[t].started
  }

  /** The mutators that earlier passes have seen have answered. */
  predicate SeenAnswered(s: System, n: nat) {
    && n <= |s.registry|
    && forall k :: 0 <= k < n && s.registry[k] < |s.cells| && IsMutator(s.cells[s.registry[k]]) ==>
      AnsweredAt(s, s.registry[k])
  }

  /** The mutators among the first `n` registered threads are settled. */
  predicate SeenSettled(s: System, n: nat) {
    && n <= |s.registry|
    && forall k :: 0 <= k < n && s.registry[k] < |s.cells| && IsMutator(s.cells[s.registry[k]]) ==>
      SettledAt(s, s.registry[k])
  }

  /** Every registered mutator is settled or on the list. */
  predicate Covered(s: System, work: seq<nat>) {
    forall k :: 0 <= k < |s.registry| && s.registry[k] < |s.cells| && IsMutator(s.cells[s.registry[k]]) ==>
      s.registry[k] in work || SettledAt(s, s.registry[k])
  }

  predicate Known(s: System, work: seq<nat>) {
    forall t :: t in work ==> t in s.registry
  }

  /** Nobody on the list was seen by an earlier pass, except who was found `New` once. */
  predicate Unseen(s: System, kept: seq<nat>, n: nat) {
    n <= |s.registry| && forall t :: t in kept ==> t !in s.registry[..n] || t in s.found.ever
  }

  /** The collector's way through a thread that is settled: it never has to be kept on the list. */
  predicate SettledPath(s: Shared, at: AtPc) {
    match at
    case Outer => StoppedForGc(s)
    case Test => StoppedForGc(s)
    case Inner => s.about
    case Req => s.about
    case About => s.about
    case InnerUnlock(res) => res == State(Terminated)
    case OuterUnlock(res) => res == State(Terminated) || res == Skipped
    case Done(res) => res == State(Terminated) || res == Skipped
    case _ => false
  }

  predicate AskPath(s: System, t: nat, n: nat) {
    && n <= |s.registry|
    && (t < |s.cells| && t !in s.found.ever && IsMutator(s.cells[t]) && t in s.registry[..n] ==>
          COLLECTOR < |s.cells[t].ags| && s.cells[t].ags[COLLECTOR].Act?
            && SettledPath(s.cells[t].sh, s.cells[t].ags[COLLECTOR].at))
  }

  predicate RetainInv(s: System, list: seq<nat>, i: nat, kept: seq<nat>, n: nat) {
    && SeenAnswered(s, n) && i <= |list|
    && Known(s, list) && Known(s, kept) && Unseen(s, kept, n)
    && (forall t :: t in list ==> t < |s.cells| && IsMutator(s.cells[t]))
    && Covered(s, kept + list[i..])
  }

  predicate FilterInv(s: System, n: nat, i: nat, result: seq<nat>) {
    && SeenSettled(s, n)
    && (forall t :: t in result ==> t < |s.cells| && Get(s.cells[t].sh.blk, GC))
    && (forall k :: 0 <= k < n && k < i && s.registry[k] < |s.cells| && IsMutator(s.cells[s.registry[k]]) ==>
          s.registry[k] in result || s.cells[s.registry[k]].sh.about || s.registry[k] in s.found.last)
  }

  /** Every registered thread but the collector's own has been resumed or is on the list. */
  predicate ResumeCovered(s: System, work: seq<nat>) {
    forall k :: 0 <= k < |s.registry| && s.registry[k] < |s.cells| && IsResumable(s.cells[s.registry[k]]) ==>
      s.registry[k] in work || s.registry[k] in s.found.resumed
  }

  predicate GcFacts(s: System) {
    match s.gc
    case GcLock(n) => SeenAnswered(s, n)
    case GcSnap(n) => SeenAnswered(s, n)
    case GcRetain(list, i, kept, n) => RetainInv(s, list, i, kept, n)
    case GcAsk(list, i, kept, n) => RetainInv(s, list, i, kept, n) && i < |list| && AskPath(s, list[i], n)
    case GcTest(kept, n) => SeenAnswered(s, n) && Known(s, kept) && Unseen(s, kept, n) && Covered(s, kept)
    case GcPop(work, n) => SeenAnswered(s, n) && Known(s, work) && Covered(s, work)
    case GcBlock(work, t, n) => SeenAnswered(s, n) && Known(s, work) && t in s.registry && Covered(s, work + [t])
    case GcRelock(n) => SeenSettled(s, n)
    case GcFilter(n, i, result) => FilterInv(s, n, i, result)
    case GcStopped(n, result) => FilterInv(s, n, n, result)
    case UnPop(work) => Known(s, work) && ResumeCovered(s, work)
    case UnBlock(work, t) => Known(s, work) && t in s.registry && ResumeCovered(s, work + [t])
    case _ => true
  }

  predicate SysInv(s: System) {
    CellsInv(s) && RegistryInv(s) && LocksInv(s) && ErrandInv(s) && FoundInv(s) && GcFacts(s)
  }

  // ---------------------------------------------------------------- what lasts

  /** From `c` to `c'`, the thread stays what it was created as, and a GC stop lasts. */
  predicate Lasts(c: Cell, c': Cell) {
    && c'.started == c.started && c'.collector == c.collector && c'.ignoring == c.ignoring
    && (c.pc != Unborn ==> c'.pc != Unborn)
    && (c.sh.about ==> c'.sh.about)
    && (Get(c.sh.blk, GC) ==> Get(c'.sh.blk, GC))
  }

  lemma OwnerLasts(c: Cell, c': Cell, act: Action)
    requires OwnerNext(c, c', act) && CellInv(c)
    ensures Lasts(c, c') && c'.ags == c.ags
  {
    hide OwnerEdge;
    OwnerStopped(c.sh, c.pc, act, c'.pc, GC);
    OwnerNeverNew(c.sh, c.pc, act, c'.pc);
  }

  lemma AgentLasts(c: Cell, c': Cell, r: nat, ev: AEv)
    requires AgentNext(c, c', r, ev) && CellInv(c)
    requires r == COLLECTOR && ev.Step? ==> c.ags[r].Act? && c.ags[r].j.kind != Unblock
    ensures Lasts(c, c')
  {
    if ev.Step? {
      assert AgentInv(c, r);
      if r == COLLECTOR { CollectorStopped(c.sh, c.ags[r].j, c.ags[r].at, ev.act, ev.p); }
      else { OtherStopped(c.sh, r, c.ags[r].j, c.ags[r].at, ev.act, ev.p, GC); }
    }
  }

  lemma CollectorStopped(s: Shared, j: Job, at: AtPc, act: Action, p: AtPc)
    requires AgentEdge(s, j, at, act, p) && AtFits(j, at) && j.kind != Unblock
    ensures var t := Do(s, Agent(COLLECTOR), act); t.about == s.about && (Get(s.blk, GC) ==> Get(t.blk, GC))
  {
  }

  /** The system after a step that did not undo anything. */
  predicate Grows(s: System, s': System) {
    && |s'.cells| == |s.cells|
    && (forall t :: 0 <= t < |s.cells| ==> Lasts(s.cells[t], s'.cells[t]))
    && s.registry <= s'.registry && s'.found == s.found
    && (CollectorHolds(s.gc) ==> s'.registry == s.registry)
  }

  lemma SeenLasts(s: System, s': System, n: nat)
    requires Grows(s, s') && SeenSettled(s, n)
    ensures SeenSettled(s', n)
  {
    forall k | 0 <= k < n && s'.registry[k] < |s'.cells| && IsMutator(s'.cells[s'.registry[k]])
      ensures SettledAt(s', s'.registry[k])
    {
      assert s'.registry[k] == s.registry[k];
      assert SettledAt(s, s.registry[k]);
    }
  }

  lemma AnsweredLasts(s: System, s': System, n: nat)
    requires Grows(s, s') && SeenAnswered(s, n)
    ensures SeenAnswered(s', n)
  {
    forall k | 0 <= k < n && s'.registry[k] < |s'.cells| && IsMutator(s'.cells[s'.registry[k]])
      ensures AnsweredAt(s', s'.registry[k])
    {
      assert s'.registry[k] == s.registry[k];
      assert AnsweredAt(s, s.registry[k]);
    }
  }

  /** The record of another answer makes nobody's answer undone. */
  lemma AnsweredTold(s: System, s': System, n: nat, t: nat, res: Res)
    requires SeenAnswered(s, n) && s' == s.(found := Told(s.found, t, res), gc := s'.gc)
    ensures SeenAnswered(s', n)
  {
    forall k | 0 <= k < n && s'.registry[k] < |s'.cells| && IsMutator(s'.cells[s'.registry[k]])
      ensures AnsweredAt(s', s'.registry[k])
    {
      assert AnsweredAt(s, s.registry[k]);
    }
  }

  lemma CoveredLasts(s: System, s': System, work: seq<nat>)
    requires Grows(s, s') && s'.registry == s.registry && Covered(s, work)
    ensures Covered(s', work)
  {
    forall k | 0 <= k < |s'.registry| && s'.registry[k] < |s'.cells| && IsMutator(s'.cells[s'.registry[k]])
      ensures s'.registry[k] in work || SettledAt(s', s'.registry[k])
    {
      assert s.registry[k] in work || SettledAt(s, s.registry[k]);
    }
  }

  lemma ResumeLasts(s: System, s': System, work: seq<nat>)
    requires Grows(s, s') && s'.registry == s.registry && ResumeCovered(s, work)
    ensures ResumeCovered(s', work)
  {
    forall k | 0 <= k < |s'.registry| && s'.registry[k] < |s'.cells| && IsResumable(s'.cells[s'.registry[k]])
      ensures s'.registry[k] in work || s'.registry[k] in s'.found.resumed
    {
      assert s.registry[k] in work || s.registry[k] in s.found.resumed;
    }
  }

  lemma FilterLasts(s: System, s': System, n: nat, i: nat, result: seq<nat>)
    requires Grows(s, s') && FilterInv(s, n, i, result)
    ensures FilterInv(s', n, i, result)
  {
    SeenLasts(s, s', n);
    forall k | 0 <= k < n && k < i && s'.registry[k] < |s'.cells| && IsMutator(s'.cells[s'.registry[k]])
      ensures s'.registry[k] in result || s'.cells[s'.registry[k]].sh.about || s'.registry[k] in s'.found.last
    {
      assert s'.registry[k] == s.registry[k];
    }
  }

  lemma RetainLasts(s: System, s': System, list: seq<nat>, i: nat, kept: seq<nat>, n: nat)
    requires Grows(s, s') && s'.registry == s.registry && RetainInv(s, list, i, kept, n)
    ensures RetainInv(s', list, i, kept, n)
  {
    AnsweredLasts(s, s', n);
    CoveredLasts(s, s', kept + list[i..]);
  }

  /** Everything the collector has achieved survives a step of somebody else. */
  lemma GcFactsLast(s: System, s': System)
    requires Grows(s, s') && s'.gc == s.gc && GcFacts(s)
    requires s.gc.GcAsk? ==> AskPath(s', s.gc.list[s.gc.i], s.gc.seen)
    ensures GcFacts(s')
  {
    match s.gc
    case GcLock(n) => AnsweredLasts(s, s', n);
    case GcSnap(n) => AnsweredLasts(s, s', n);
    case GcRetain(list, i, kept, n) => RetainLasts(s, s', list, i, kept, n);
    case GcAsk(list, i, kept, n) => RetainLasts(s, s', list, i, kept, n);
    case GcTest(kept, n) => AnsweredLasts(s, s', n); CoveredLasts(s, s', kept);
    case GcPop(work, n) => AnsweredLasts(s, s', n); CoveredLasts(s, s', work);
    case GcBlock(work, t, n) => AnsweredLasts(s, s', n); CoveredLasts(s, s', work + [t]);
    case GcRelock(n) => SeenLasts(s, s', n);
    case GcFilter(n, i, result) => FilterLasts(s, s', n, i, result);
    case GcStopped(n, result) => FilterLasts(s, s', n, n, result);
    case UnPop(work) => ResumeLasts(s, s', work);
    case UnBlock(work, t) => ResumeLasts(s, s', work + [t]);
    case _ =>
  }
}

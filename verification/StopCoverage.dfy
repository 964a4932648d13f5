/** Whom `block_all_mutators_for_gc` stops, told from what was registered and running when it was
    called, and whom it returns, told from the flags it found. */
module StopCoverage {
  import opened StopFacts
  import opened StopTheWorld
  import opened System
  import opened SystemInvariant
  import opened ThreadCell
  import opened ThreadProgram

  // ---------------------------------------------------------------- registration

  /** Every thread past its own registration is in the registry. */
  predicate AllRegistered(s: System) {
    forall t :: 0 <= t < |s.cells| && s.cells[t].pc != Unborn && !Joining(s.cells[t].pc) ==> t in s.registry
  }

  /** Only `add_thread` ends a thread's way to its registration, and only by entering it. */
  lemma JoiningEnds(s: Shared, pc: OPc, act: Action, p: OPc)
    requires OwnerEdge(s, pc, act, p) && Joining(pc) && !Joining(p)
    ensures pc.Rg? && pc.g == GPush
  {
  }

  lemma NextKeepsRegistered(s: System, s': System, l: Label)
    requires Next(s, s', l) && AllRegistered(s)
    ensures AllRegistered(s') && s.registry <= s'.registry
  {
    hide OwnerEdge, AgentNext, CollectorStep, Joining;
    match l
    case LThread(t, act) => StepKeepsRegistered(s, s', t, act);
    case LAgent(t, r, ev) => AgentKeepsPc(s.cells[t], s'.cells[t], r, ev);
    case LCollector(res) =>
      CollectorKeepsShared(s, s', res);
      CollectorKeepsRegistry(s, s', res);
    case LBirth(t) => BirthJoins(s, s', t);
    case LMain(t) => BirthJoins(s, s', t);
    case _ =>
  }

  lemma BirthJoins(s: System, s': System, t: nat)
    requires AllRegistered(s) && (BirthStep(s, s', t) || MainStep(s, s', t))
    ensures AllRegistered(s') && s.registry <= s'.registry
  {
  }

  lemma StepKeepsRegistered(s: System, s': System, t: nat, act: Action)
    requires ThreadStep(s, s', t, act) && AllRegistered(s)
    ensures AllRegistered(s') && s.registry <= s'.registry
  {
    hide OwnerEdge, Joining;
    if Joining(s.cells[t].pc) && !Joining(s'.cells[t].pc) {
      JoiningEnds(s.cells[t].sh, s.cells[t].pc, act, s'.cells[t].pc);
    }
    OwnerWasBorn(s.cells[t].sh, s.cells[t].pc, act, s'.cells[t].pc);
  }

  lemma OwnerWasBorn(s: Shared, pc: OPc, act: Action, p: OPc)
    requires OwnerEdge(s, pc, act, p)
    ensures pc != Unborn
  {
  }

  lemma CollectorKeepsRegistry(s: System, s': System, res: Res)
    requires CollectorStep(s, s', res)
    ensures s'.registry == s.registry
  {
    hide AgentNext, Select;
  }

  lemma {:induction false} RunRegistered(run: seq<System>, labels: seq<Label>, i: nat)
    requires IsRun(run, labels) && i < |run|
    ensures AllRegistered(run[i])
  {
    hide Next, AllRegistered;
    if i == 0 {
      StartRegistered(run[0]);
    } else {
      RunRegistered(run, labels, i - 1);
      NextKeepsRegistered(run[i - 1], run[i], labels[i - 1]);
    }
  }

  lemma StartRegistered(s: System)
    requires Init(s)
    ensures AllRegistered(s)
  {
    forall t | 0 <= t < |s.cells| ensures s.cells[t].pc == Unborn {
      assert Fresh(s.cells[t]);
    }
  }

  // ---------------------------------------------------------------- one collection

  /** Between the call of `block_all_mutators_for_gc` and the resume. */
  predicate Collecting(gc: GcPc) {
    gc != GcIdle && gc != UnLock && gc != UnSnap && !gc.UnPop? && !gc.UnBlock?
  }

  /** The loop is over only with a pass that has been through at least the threads in `known`. */
  predicate CoversKnown(s: System, known: seq<nat>) {
    && known <= s.registry && Collecting(s.gc)
    && (s.gc.GcRelock? || s.gc.GcFilter? || s.gc.GcStopped? ==> |known| <= s.gc.seen)
  }

  lemma CollectorCovers(s: System, s': System, res: Res, known: seq<nat>)
    requires CollectorStep(s, s', res) && CoversKnown(s, known) && s'.gc != UnLock
    ensures CoversKnown(s', known)
  {
    hide AgentNext, Select;
  }

  lemma NextCovers(s: System, s': System, l: Label, known: seq<nat>)
    requires Next(s, s', l) && AllRegistered(s) && CoversKnown(s, known) && s'.gc != UnLock
    ensures CoversKnown(s', known)
  {
    hide ThreadStep, AgentNext, CollectorStep, AllRegistered;
    NextKeepsRegistered(s, s', l);
    match l
    case LThread(t, act) => assert s'.gc == s.gc by { ThreadKeepsGc(s, s', t, act); }
    case LCollector(res) => CollectorCovers(s, s', res, known);
    case _ =>
  }

  lemma ThreadKeepsGc(s: System, s': System, t: nat, act: Action)
    requires ThreadStep(s, s', t, act)
    ensures s'.gc == s.gc
  {
  }

  /** `block_all_mutators_for_gc` is called in the step from `j`, and no resume has begun up to `i`. */
  ghost predicate CalledAt(run: seq<System>, j: nat, i: nat) {
    && j < i < |run| && run[j].gc == GcIdle && run[j + 1].gc != GcIdle
    && forall k :: j < k <= i ==> run[k].gc != UnLock
  }

  lemma {:induction false} CallCovers(run: seq<System>, labels: seq<Label>, j: nat, i: nat)
    requires IsRun(run, labels) && CalledAt(run, j, i)
    ensures CoversKnown(run[i], run[j].registry)
    decreases i
  {
    hide Next, CoversKnown, AllRegistered;
    RunRegistered(run, labels, i - 1);
    if i == j + 1 {
      CallBegins(run[j], run[i], labels[j]);
    } else {
      CallCovers(run, labels, j, i - 1);
      NextCovers(run[i - 1], run[i], labels[i - 1], run[j].registry);
    }
  }

  lemma CallBegins(s: System, s': System, l: Label)
    requires Next(s, s', l) && s.gc == GcIdle && s'.gc != GcIdle
    ensures CoversKnown(s', s.registry)
  {
  }

  /** When `block_all_mutators_for_gc` has returned, every mutator that was registered when it was
      called, and that the last request did not find `New`, is stopped: blocked for GC and in the
      returned list, or terminating. */
  lemma RegisteredAreStopped(run: seq<System>, labels: seq<Label>, j: nat, i: nat, t: nat)
    requires IsRun(run, labels) && CalledAt(run, j, i) && run[i].gc.GcStopped?
    requires t in run[j].registry
    ensures t < |run[i].cells|
    ensures var c := run[i].cells[t];
            IsMutator(c) && (c.started || t !in run[i].found.last) ==>
              && !Executing(c.pc)
              && ((Get(c.sh.blk, GC) && t in run[i].gc.result) || (c.sh.about && Terminating(c.pc)))
  {
    CallCovers(run, labels, j, i);
    var k :| 0 <= k < |run[j].registry| && run[j].registry[k] == t;
    assert run[i].registry[k] == t;
    WorldIsStopped(run, labels, i, k);
  }

  /** In particular every mutator created by `start` or `main` that was executing managed code, or
      anything else past its registration, at the moment of the call. */
  lemma RunningAreStopped(run: seq<System>, labels: seq<Label>, j: nat, i: nat, t: nat)
    requires IsRun(run, labels) && CalledAt(run, j, i) && run[i].gc.GcStopped?
    requires t < |run[j].cells| && run[j].cells[t].pc != Unborn && !Joining(run[j].cells[t].pc)
    ensures t < |run[i].cells|
    ensures var c := run[i].cells[t];
            IsMutator(c) && (c.started || t !in run[i].found.last) ==>
              && !Executing(c.pc)
              && ((Get(c.sh.blk, GC) && t in run[i].gc.result) || (c.sh.about && Terminating(c.pc)))
  {
    RunRegistered(run, labels, j);
    RegisteredAreStopped(run, labels, j, i, t);
  }

  // ---------------------------------------------------------------- the returned list

  predicate Filtering(gc: GcPc) {
    gc.GcFilter? || gc.GcStopped?
  }

  /** In the step from `j`, the filter whose outcome is at hand at `i` looks at the next registered
      thread, which is `t`. */
  ghost predicate LooksAt(run: seq<System>, j: nat, i: nat, t: nat) {
    && j < i < |run| && run[j].gc.GcFilter? && run[j + 1].gc.GcFilter?
    && run[j].gc.i < |run[j].registry| && run[j + 1].gc.i == run[j].gc.i + 1
    && run[j].registry[run[j].gc.i] == t && t < |run[j].cells|
    && forall m :: j <= m <= i ==> Filtering(run[m].gc)
  }

  /** The filter has come by entry `k` of the registry. */
  ghost predicate Looked(run: seq<System>, i: nat, k: nat) {
    exists j: nat :: j < i < |run| && k < |run[j].registry| && run[j].gc.GcFilter? && run[j].gc.i == k
                     && LooksAt(run, j, i, run[j].registry[k])
  }

  /** The filter found the thread blocked for GC when it came by it. */
  ghost predicate FoundBlocked(run: seq<System>, i: nat, t: nat) {
    exists j: nat :: LooksAt(run, j, i, t) && Get(run[j].cells[t].sh.blk, GC)
  }

  /** Other steps leave the filter alone, and its own step looks at one entry or returns. */
  lemma FilterStep(s: System, s': System, l: Label)
    requires Next(s, s', l) && SysInv(s) && Filtering(s'.gc)
    ensures Filtering(s.gc) || (s.gc.GcRelock? && s'.gc == GcFilter(s.gc.seen, 0, []))
    ensures Filtering(s.gc) ==>
            || s'.gc == s.gc
            || (s.gc.GcFilter? && s.gc.i >= |s.registry| && s'.gc == GcStopped(s.gc.seen, s.gc.result))
            || (s.gc.GcFilter? && s.gc.i < |s.registry| && s.registry[s.gc.i] < |s.cells|
                && s'.gc == GcFilter(s.gc.seen, s.gc.i + 1,
                     if Get(s.cells[s.registry[s.gc.i]].sh.blk, GC) then s.gc.result + [s.registry[s.gc.i]]
                     else s.gc.result))
    ensures s.gc.GcFilter? ==> s'.registry == s.registry
  {
    hide OwnerNext, AgentNext, CellInv, GcFacts, LocksInv, FoundInv, ErrandInv, Select, Asks;
  }

  lemma LooksLonger(run: seq<System>, j: nat, i: nat, t: nat)
    requires i + 1 < |run| && Filtering(run[i + 1].gc) && LooksAt(run, j, i, t)
    ensures LooksAt(run, j, i + 1, t)
  {
  }

  lemma LookedLonger(run: seq<System>, i: nat, k: nat)
    requires i + 1 < |run| && Filtering(run[i + 1].gc) && Looked(run, i, k)
    ensures Looked(run, i + 1, k)
  {
    var j: nat :| j < i && k < |run[j].registry| && LooksAt(run, j, i, run[j].registry[k]) && run[j].gc.i == k;
    LooksLonger(run, j, i, run[j].registry[k]);
  }

  /** What was found has been found before or is found in the last step. */
  lemma FoundBefore(run: seq<System>, i: nat, t: nat)
    requires FoundBlocked(run, i + 1, t)
    ensures FoundBlocked(run, i, t) || (LooksAt(run, i, i + 1, t) && Get(run[i].cells[t].sh.blk, GC))
  {
    var j: nat :| LooksAt(run, j, i + 1, t) && Get(run[j].cells[t].sh.blk, GC);
    if j < i { assert LooksAt(run, j, i, t); }
  }

  lemma FoundLonger(run: seq<System>, i: nat, t: nat)
    requires i + 1 < |run| && Filtering(run[i + 1].gc) && FoundBlocked(run, i, t)
    ensures FoundBlocked(run, i + 1, t)
  {
    var j: nat :| LooksAt(run, j, i, t) && Get(run[j].cells[t].sh.blk, GC);
    LooksLonger(run, j, i, t);
  }

  /** The filter starts with an empty list, having found nobody. */
  lemma NobodyFoundYet(run: seq<System>, i: nat, t: nat)
    requires i < |run| && (i == 0 || !Filtering(run[i - 1].gc))
    ensures !FoundBlocked(run, i, t)
  {
  }

  /** So far, the list is exactly the threads that were blocked when the filter came by them. */
  lemma {:induction false} FoundExactly(run: seq<System>, labels: seq<Label>, i: nat, t: nat)
    requires IsRun(run, labels) && i < |run| && Filtering(run[i].gc)
    ensures t in run[i].gc.result <==> FoundBlocked(run, i, t)
  {
    hide Next, SysInv, FoundBlocked;
    if i == 0 || !Filtering(run[i - 1].gc) {
      NobodyFoundYet(run, i, t);
      if i > 0 { RunInv(run, labels, i - 1); FilterStep(run[i - 1], run[i], labels[i - 1]); }
    } else {
      RunInv(run, labels, i - 1);
      FilterStep(run[i - 1], run[i], labels[i - 1]);
      FoundExactly(run, labels, i - 1, t);
      if FoundBlocked(run, i, t) { FoundBefore(run, i - 1, t); }
      if FoundBlocked(run, i - 1, t) { FoundLonger(run, i - 1, t); }
      if t in run[i].gc.result && t !in run[i - 1].gc.result { FoundNow(run, i - 1, t); }
    }
  }

  lemma FoundNow(run: seq<System>, i: nat, t: nat)
    requires i + 1 < |run| && LooksAt(run, i, i + 1, t) && Get(run[i].cells[t].sh.blk, GC)
    ensures FoundBlocked(run, i + 1, t)
  {
  }

  /** The filter comes by every entry. */
  lemma {:induction false} LookedThrough(run: seq<System>, labels: seq<Label>, i: nat, k: nat)
    requires IsRun(run, labels) && i < |run| && run[i].gc.GcFilter? && k < run[i].gc.i
    ensures Looked(run, i, k)
  {
    hide Next, SysInv, Looked;
    if i > 0 {
      RunInv(run, labels, i - 1);
      FilterStep(run[i - 1], run[i], labels[i - 1]);
      if k < run[i - 1].gc.i {
        LookedThrough(run, labels, i - 1, k);
        LookedLonger(run, i - 1, k);
      } else {
        LookedNow(run, i - 1);
      }
    }
  }

  lemma LookedNow(run: seq<System>, i: nat)
    requires i + 1 < |run| && run[i].gc.GcFilter? && run[i].gc.i < |run[i].registry|
    requires LooksAt(run, i, i + 1, run[i].registry[run[i].gc.i])
    ensures Looked(run, i + 1, run[i].gc.i)
  {
  }

  /** `block_all_mutators_for_gc` returns exactly the threads that were blocked for GC when its filter
      came by them, and it came by every thread that was registered then: whoever has registered since
      the last pass is returned as well if blocked. */
  lemma ReturnedExactly(run: seq<System>, labels: seq<Label>, i: nat, t: nat, k: nat)
    requires IsRun(run, labels) && i < |labels| && run[i].gc.GcFilter? && run[i + 1].gc.GcStopped?
    ensures t in run[i + 1].gc.result <==> FoundBlocked(run, i + 1, t)
    ensures k < |run[i].registry| ==> Looked(run, i + 1, k)
  {
    hide Next, SysInv, Looked, FoundBlocked;
    RunInv(run, labels, i);
    FilterStep(run[i], run[i + 1], labels[i]);
    FoundExactly(run, labels, i + 1, t);
    if k < |run[i].registry| {
      LookedThrough(run, labels, i, k);
      LookedLonger(run, i, k);
    }
  }
}

/** The collector's own steps: each pass over the registry settles every mutator it has seen. */
module CollectorSteps {
  import opened Options
  import opened System
  import opened SystemInvariant
  import opened SystemSteps
  import opened ThreadCell
  import opened ThreadProgram
  import opened WakeFacts

  /** Starting or finishing an errand changes nothing others can see. */
  lemma AsksFrame(s: System, s': System, t: nat, ev: AEv)
    requires Asks(s, s', t, ev) && !ev.Step?
    ensures forall q :: 0 <= q < |s.cells| ==>
              s'.cells[q].sh == s.cells[q].sh && s'.cells[q].pc == s.cells[q].pc
                && s'.cells[q].started == s.cells[q].started
              && s'.cells[q].collector == s.cells[q].collector && s'.cells[q].ignoring == s.cells[q].ignoring
    ensures forall q :: 0 <= q < |s.cells| && q != t ==> s'.cells[q] == s.cells[q]
    ensures COLLECTOR < |s.cells[t].ags| == |s'.cells[t].ags|
    ensures ev.Begin? ==> s'.cells[t].ags[COLLECTOR] == Act(ev.job, FirstPc(ev.job))
    ensures ev.End? ==> s.cells[t].ags[COLLECTOR] == Act(ev.job, Done(ev.res)) && s'.cells[t].ags[COLLECTOR] == Idle
  {
  }

  lemma AsksKeepsBase(s: System, s': System, t: nat, ev: AEv)
    requires Asks(s, s', t, ev) && !ev.Step? && SysInv(s)
    requires CollectorHolds(s.gc) && CollectorHolds(s'.gc)
    requires CurrentErrand(s.gc) == (if ev.Begin? then NoErrand else Errand(t, ev.job))
    requires CurrentErrand(s'.gc) == (if ev.Begin? then Errand(t, ev.job) else NoErrand)
    ensures CellsInv(s') && RegistryInv(s') && LocksInv(s') && ErrandInv(s') && Grows(s, s'.(found := s.found))
  {
    hide CellInv, AgentNext, GcFacts, Joining;
    AsksFrame(s, s', t, ev);
    AgentKeepsCells(s, s', t, COLLECTOR, ev);
    forall q | 0 <= q < |s'.cells| ensures LockFits(s'.locks, q, s'.cells[q].pc) {
      assert LockFits(s.locks, q, s.cells[q].pc);
    }
    forall q | 0 <= q < |s'.cells| ensures CollectorAt(s'.cells[q], q, CurrentErrand(s'.gc)) {
      assert CollectorAt(s.cells[q], q, CurrentErrand(s.gc));
    }
  }

  /** A step that only moves the collector, and perhaps takes or drops the registry lock. */
  predicate Moves(s: System, s': System) {
    && s' == s.(gc := s'.gc, regHolder := s'.regHolder, found := s'.found)
    && (s'.found == s.found || s'.found == Found({}, {}, {}) || s'.found == s.found.(resumed := {}))
    && (s'.regHolder == s.regHolder || (s.regHolder == None && s'.regHolder == Some(RegCollector))
        || (s.regHolder == Some(RegCollector) && s'.regHolder == None))
    && (CollectorHolds(s'.gc) <==> s'.regHolder == Some(RegCollector))
    && CurrentErrand(s.gc) == NoErrand && CurrentErrand(s'.gc) == NoErrand
  }

  lemma MovesKeepsBase(s: System, s': System)
    requires Moves(s, s') && SysInv(s)
    ensures CellsInv(s') && RegistryInv(s') && LocksInv(s') && ErrandInv(s') && FoundInv(s')
  {
    hide CellInv, GcFacts;
    forall q | 0 <= q < |s'.cells| ensures LockFits(s'.locks, q, s'.cells[q].pc) {
      assert LockFits(s.locks, q, s.cells[q].pc);
    }
    forall q | 0 <= q < |s'.cells| ensures CollectorAt(s'.cells[q], q, CurrentErrand(s'.gc)) {
      assert CollectorAt(s.cells[q], q, CurrentErrand(s.gc));
    }
  }

  /** What an errand that has just ended tells about its thread. */
  lemma ErrandOutcome(s: System, t: nat, job: Job, res: Res)
    requires t < |s.cells| && CellsInv(s) && COLLECTOR < |s.cells[t].ags|
    requires s.cells[t].ags[COLLECTOR] == Act(job, Done(res)) && job.kind != Unblock && job.ad == GC
    ensures job.kind == BlockSync || Leaves(res) ==> StoppedForGc(s.cells[t].sh) || res == State(New)
    ensures res == State(New) ==> !s.cells[t].started
  {
    assert CellInv(s.cells[t]);
  }

  lemma MovesGrow(s: System, s': System)
    requires Moves(s, s') && s'.found == s.found
    ensures Grows(s, s') && s'.registry == s.registry
  {
  }

  /** (1) The worklist of a pass holds every registered mutator. */
  lemma SnapshotCovers(s: System, n: nat)
    requires SeenAnswered(s, n)
    ensures RetainInv(s, Select(s.registry, s.cells, IsMutator), 0, [], n)
  {
    var list := Select(s.registry, s.cells, IsMutator);
    assert [] + list[0..] == list;
  }

  lemma StartAsking(s: System, s': System, res: Res)
    requires BlockAllStep(s, s', res) && SysInv(s) && s.gc.GcRetain? && s.gc.i < |s.gc.list|
    ensures SysInv(s')
  {
    hide CellInv, AgentNext;
    var list, i, kept, n := s.gc.list, s.gc.i, s.gc.kept, s.gc.seen;
    var t := list[i];
    AsksKeepsBase(s, s', t, Begin(RetainJob));
    AsksFrame(s, s', t, Begin(RetainJob));
    RetainLasts(s, s', list, i, kept, n);
    if t in s.registry[..n] && IsMutator(s.cells[t]) {
      var k :| 0 <= k < n && s.registry[k] == t;
      assert AnsweredAt(s, s.registry[k]);
    }
  }

  /** Covered before its answer is recorded, covered after. */
  lemma CoveredTold(m: System, s': System, work: seq<nat>, work': seq<nat>, t: nat, res: Res)
    requires Covered(m, work) && s' == m.(found := Told(m.found, t, res), gc := s'.gc) && t < |m.cells|
    requires forall q :: q in work && q != t ==> q in work'
    requires t in work' || StoppedForGc(m.cells[t].sh) || res == State(New)
    ensures Covered(s', work')
  {
    forall k | 0 <= k < |s'.registry| && s'.registry[k] < |s'.cells| && IsMutator(s'.cells[s'.registry[k]])
      ensures s'.registry[k] in work' || SettledAt(s', s'.registry[k])
    {
      assert m.registry[k] in work || SettledAt(m, m.registry[k]);
    }
  }

  lemma FoundTold(s: System, s': System, t: nat, res: Res)
    requires FoundInv(s) && s'.found == Told(s.found, t, res) && |s'.cells| == |s.cells| && t < |s.cells|
    requires forall q :: 0 <= q < |s.cells| ==> s'.cells[q].started == s.cells[q].started
    requires res == State(New) ==> !s.cells[t].started
    ensures FoundInv(s')
  {
  }

  /** (2) A thread leaves the worklist only if it is settled, and stays only if no earlier pass has
      seen it, or found it `New`. */
  lemma FinishAsking(s: System, s': System, res: Res)
    requires BlockAllStep(s, s', res) && SysInv(s) && s.gc.GcAsk?
    ensures SysInv(s')
  {
    hide CellInv, AgentNext;
    var list, i, kept, n := s.gc.list, s.gc.i, s.gc.kept, s.gc.seen;
    var t := list[i];
    var m := s'.(found := s.found);
    AsksKeepsBase(s, s', t, End(RetainJob, res));
    AsksFrame(s, s', t, End(RetainJob, res));
    ErrandOutcome(s, t, RetainJob, res);
    FoundTold(s, s', t, res);
    RetainLasts(s, m, list, i, kept, n);
    RetainTold(m, s', list, i, kept, n, res);
  }

  lemma RetainTold(m: System, s': System, list: seq<nat>, i: nat, kept: seq<nat>, n: nat, res: Res)
    requires RetainInv(m, list, i, kept, n) && i < |list| && list[i] < |m.cells|
    requires s' == m.(found := Told(m.found, list[i], res), gc := s'.gc)
    requires Leaves(res) ==> StoppedForGc(m.cells[list[i]].sh) || res == State(New)
    requires !Leaves(res) ==> list[i] in m.found.ever || list[i] !in m.registry[..n]
    ensures RetainInv(s', list, i + 1, if Leaves(res) then kept else kept + [list[i]], n)
  {
    hide SeenAnswered, Covered;
    var kept' := if Leaves(res) then kept else kept + [list[i]];
    assert list[i..] == [list[i]] + list[i + 1..];
    AnsweredTold(m, s', n, list[i], res);
    assert forall q :: q in kept + list[i..] && q != list[i] ==> q in kept' + list[i + 1..];
    CoveredTold(m, s', kept + list[i..], kept' + list[i + 1..], list[i], res);
  }

  lemma StartStopping(s: System, s': System, res: Res)
    requires BlockAllStep(s, s', res) && SysInv(s) && s.gc.GcPop? && s.gc.work != []
    ensures SysInv(s')
  {
    hide CellInv, AgentNext;
    var work, n := s.gc.work, s.gc.seen;
    var t := work[|work| - 1];
    AsksKeepsBase(s, s', t, Begin(StopJob));
    AnsweredLasts(s, s', n);
    CoveredLasts(s, s', work);
    assert work == work[..|work| - 1] + [t];
  }

  /** (4) A synchronous stop request leaves its thread settled. */
  lemma FinishStopping(s: System, s': System, res: Res)
    requires BlockAllStep(s, s', res) && SysInv(s) && s.gc.GcBlock?
    ensures SysInv(s')
  {
    hide CellInv, AgentNext;
    var work, t, n := s.gc.work, s.gc.t, s.gc.seen;
    var m := s'.(found := s.found);
    AsksKeepsBase(s, s', t, End(StopJob, res));
    AsksFrame(s, s', t, End(StopJob, res));
    ErrandOutcome(s, t, StopJob, res);
    FoundTold(s, s', t, res);
    AnsweredLasts(s, m, n);
    AnsweredTold(m, s', n, t, res);
    CoveredLasts(s, m, work + [t]);
    CoveredTold(m, s', work + [t], work, t, res);
  }

  lemma FilterMoves(s: System, s': System, res: Res)
    requires BlockAllStep(s, s', res) && SysInv(s) && s.gc.GcFilter?
    ensures SysInv(s')
  {
    hide CellInv;
    MovesKeepsBase(s, s');
    MovesGrow(s, s');
    var n, i, result := s.gc.seen, s.gc.i, s.gc.result;
    FilterLasts(s, s', n, i, result);
    if i < |s.registry| && i < n && IsMutator(s.cells[s.registry[i]]) {
      assert SettledAt(s, s.registry[i]);
    }
  }

  /** With nobody left on the worklist, everybody is settled. */
  lemma AllSettled(s: System)
    requires Covered(s, [])
    ensures SeenSettled(s, |s.registry|)
  {
  }

  lemma AllAnswered(s: System)
    requires Covered(s, []) && FoundInv(s)
    ensures SeenAnswered(s, |s.registry|)
  {
    forall k | 0 <= k < |s.registry| && s.registry[k] < |s.cells| && IsMutator(s.cells[s.registry[k]])
      ensures AnsweredAt(s, s.registry[k])
    {
      assert SettledAt(s, s.registry[k]);
    }
  }

  lemma PassMoves(s: System, s': System, res: Res)
    requires BlockAllStep(s, s', res) && SysInv(s)
    requires s.gc.GcLock? || s.gc.GcSnap? || (s.gc.GcRetain? && s.gc.i == |s.gc.list|) || s.gc.GcTest?
             || (s.gc.GcPop? && s.gc.work == []) || s.gc.GcRelock?
    ensures SysInv(s')
  {
    hide CellInv;
    MovesKeepsBase(s, s');
    MovesGrow(s, s');
    match s.gc
    case GcLock(n) => AnsweredLasts(s, s', n);
    case GcSnap(n) => AnsweredLasts(s, s', n); SnapshotCovers(s', n);
    case GcRetain(list, i, kept, n) => RetainLasts(s, s', list, i, kept, n); assert kept + list[i..] == kept;
    case GcTest(kept, n) => AnsweredLasts(s, s', n); CoveredLasts(s, s', kept); if kept == [] { AllSettled(s'); }
    case GcPop(work, n) => CoveredLasts(s, s', work); AllAnswered(s');
    case GcRelock(n) => SeenLasts(s, s', n);
  }

  lemma BlockAllKeepsInv(s: System, s': System, res: Res)
    requires BlockAllStep(s, s', res) && SysInv(s)
    ensures SysInv(s')
  {
    hide SysInv, AgentNext, Select;
    match s.gc
    case GcRetain(list, i, _, _) =>
      if i < |list| { StartAsking(s, s', res); } else { RetainDone(s); PassMoves(s, s', res); }
    case GcAsk(_, _, _, _) => FinishAsking(s, s', res);
    case GcPop(work, _) => if work == [] { PassMoves(s, s', res); } else { StartStopping(s, s', res); }
    case GcBlock(_, _, _) => FinishStopping(s, s', res);
    case GcFilter(_, _, _) => FilterMoves(s, s', res);
    case GcLock(_) => PassMoves(s, s', res);
    case GcSnap(_) => PassMoves(s, s', res);
    case GcTest(_, _) => PassMoves(s, s', res);
    case GcRelock(_) => PassMoves(s, s', res);
  }

  lemma RetainDone(s: System)
    requires SysInv(s) && s.gc.GcRetain? && s.gc.i >= |s.gc.list|
    ensures s.gc.i == |s.gc.list|
  {
  }

  /** The worklist of the resume holds everybody, in turn. */
  lemma StartResuming(s: System, s': System, res: Res)
    requires UnblockAllStep(s, s', res) && SysInv(s) && s.gc.UnPop? && s.gc.work != []
    ensures SysInv(s')
  {
    hide CellInv, AgentNext;
    var work := s.gc.work;
    AsksKeepsBase(s, s', work[|work| - 1], Begin(ResumeJob));
    ResumeLasts(s, s', work);
    assert work == work[..|work| - 1] + [work[|work| - 1]];
  }

  lemma FinishResuming(s: System, s': System, res: Res)
    requires UnblockAllStep(s, s', res) && SysInv(s) && s.gc.UnBlock?
    ensures SysInv(s')
  {
    hide CellInv, AgentNext;
    var m := s'.(found := s.found);
    AsksKeepsBase(s, s', s.gc.t, End(ResumeJob, res));
    ResumeLasts(s, m, s.gc.work + [s.gc.t]);
    forall k | 0 <= k < |s'.registry| && s'.registry[k] < |s'.cells| && IsResumable(s'.cells[s'.registry[k]])
      ensures s'.registry[k] in s.gc.work || s'.registry[k] in s'.found.resumed
    {
      assert m.registry[k] in s.gc.work + [s.gc.t] || m.registry[k] in m.found.resumed;
    }
  }

  lemma UnblockAllKeepsInv(s: System, s': System, res: Res)
    requires UnblockAllStep(s, s', res) && SysInv(s)
    ensures SysInv(s')
  {
    hide CellInv, AgentNext, Select, Joining;
    match s.gc
    case UnPop(work) => if work == [] { MovesKeepsBase(s, s'); } else { StartResuming(s, s', res); }
    case UnBlock(_, t) => FinishResuming(s, s', res);
    case UnLock => MovesKeepsBase(s, s');
    case UnSnap => MovesKeepsBase(s, s');
  }

  lemma CollectorKeepsInv(s: System, s': System, res: Res)
    requires CollectorStep(s, s', res) && SysInv(s)
    ensures SysInv(s')
  {
    hide CellInv, BlockAllStep, UnblockAllStep;
    if BlockAllStep(s, s', res) {
      BlockAllKeepsInv(s, s', res);
    } else if UnblockAllStep(s, s', res) {
      UnblockAllKeepsInv(s, s', res);
    } else {
      MovesKeepsBase(s, s');
    }
  }
}

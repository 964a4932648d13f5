/** What `unblock_all_mutators_for_gc` achieves. */
module ResumeTheWorld {
  import opened CollectorSteps
  import opened Options
  import opened StopTheWorld
  import opened System
  import opened SystemInvariant
  import opened ThreadCell
  import opened ThreadProgram
  import opened WakeFacts

  /** The collector is about to leave the thread's monitor, and has cleared its GC request and its GC
      flag and notified everybody asleep on it. */
  predicate Cleared(s: System, t: nat) {
    && t < |s.cells| && COLLECTOR < |s.cells[t].ags|
    && s.cells[t].ags[COLLECTOR] == Act(ResumeJob, OuterUnlock(Unit))
    && s.cells[t].sh.holder == Some(Agent(COLLECTOR)) && IsResumed(s.cells[t].sh, GC)
  }

  predicate Resuming(s: System) {
    s.gc.UnPop? || s.gc.UnBlock?
  }

  /** The thread is cleared at some point before `i`, in the same resume. */
  ghost predicate WasCleared(run: seq<System>, i: nat, t: nat) {
    exists j :: 0 <= j < i < |run| && ClearedAt(run, j, i, t)
  }

  ghost predicate ClearedAt(run: seq<System>, j: nat, i: nat, t: nat)
    requires j < i < |run|
  {
    Cleared(run[j], t) && forall k :: j <= k <= i ==> Resuming(run[k])
  }

  /** What the collector has done to a thread when it is through with it. */
  lemma ResumeClears(run: seq<System>, labels: seq<Label>, i: nat, t: nat, res: Res)
    requires IsRun(run, labels) && i < |run| && t < |run[i].cells| && COLLECTOR < |run[i].cells[t].ags|
    requires run[i].cells[t].ags[COLLECTOR] == Act(ResumeJob, OuterUnlock(res))
    ensures Cleared(run[i], t) && run[i].gc.UnBlock?
  {
    RunInv(run, labels, i);
    assert CollectorAt(run[i].cells[t], t, CurrentErrand(run[i].gc));
    CellClears(run[i].cells[t], res);
  }

  lemma CellClears(c: Cell, res: Res)
    requires CellInv(c) && c.ags[COLLECTOR] == Act(ResumeJob, OuterUnlock(res))
    ensures res == Unit && c.sh.holder == Some(Agent(COLLECTOR)) && IsResumed(c.sh, GC)
  {
    assert AgentInv(c, COLLECTOR);
  }

  /** The resume of a thread ends only by leaving its monitor. */
  lemma DoneComesFrom(s: System, s': System, l: Label, t: nat, res: Res)
    requires SysInv(s) && Next(s, s', l) && t < |s'.cells| && COLLECTOR < |s'.cells[t].ags|
    requires s'.cells[t].ags[COLLECTOR] == Act(ResumeJob, Done(res))
    ensures t < |s.cells| && COLLECTOR < |s.cells[t].ags|
    ensures s.cells[t].ags[COLLECTOR] == Act(ResumeJob, Done(res))
            || s.cells[t].ags[COLLECTOR] == Act(ResumeJob, OuterUnlock(res))
  {
    hide OwnerEdge, CellInv, GcFacts, CollectorStep, Touches;
    match l
    case LAgent(q, r, ev) => if q == t { AgentDone(s.cells[t], s'.cells[t], r, ev, res); }
    case LCollector(x) => CollectorKeepsDone(s, s', x, t, res);
    case _ =>
  }

  lemma AgentDone(c: Cell, c': Cell, r: nat, ev: AEv, res: Res)
    requires AgentNext(c, c', r, ev) && COLLECTOR < |c'.ags| && c'.ags[COLLECTOR] == Act(ResumeJob, Done(res))
    ensures COLLECTOR < |c.ags|
    ensures c.ags[COLLECTOR] == Act(ResumeJob, Done(res)) || c.ags[COLLECTOR] == Act(ResumeJob, OuterUnlock(res))
  {
  }

  lemma CollectorKeepsDone(s: System, s': System, x: Res, t: nat, res: Res)
    requires CollectorStep(s, s', x) && t < |s'.cells| && COLLECTOR < |s'.cells[t].ags|
    requires s'.cells[t].ags[COLLECTOR] == Act(ResumeJob, Done(res))
    ensures t < |s.cells| && COLLECTOR < |s.cells[t].ags| && s.cells[t].ags[COLLECTOR] == Act(ResumeJob, Done(res))
  {
    hide BlockAllStep, UnblockAllStep;
    if BlockAllStep(s, s', x) {
      BlockAllKeepsDone(s, s', x, t, res);
    } else if UnblockAllStep(s, s', x) {
      UnblockAllKeepsDone(s, s', x, t, res);
    }
  }

  lemma BlockAllKeepsDone(s: System, s': System, x: Res, t: nat, res: Res)
    requires BlockAllStep(s, s', x) && t < |s'.cells| && COLLECTOR < |s'.cells[t].ags|
    requires s'.cells[t].ags[COLLECTOR] == Act(ResumeJob, Done(res))
    ensures t < |s.cells| && s.cells[t] == s'.cells[t]
  {
    hide Asks, Select;
    match s.gc
    case GcRetain(list, i, _, _) => if i < |list| { AsksKeepsDone(s, s', list[i], Begin(RetainJob), t, res); }
    case GcAsk(list, i, _, _) => AsksKeepsDone(s, s', list[i], End(RetainJob, x), t, res);
    case GcPop(work, _) => if work != [] { AsksKeepsDone(s, s', work[|work| - 1], Begin(StopJob), t, res); }
    case GcBlock(_, q, _) => AsksKeepsDone(s, s', q, End(StopJob, x), t, res);
    case _ =>
  }

  lemma UnblockAllKeepsDone(s: System, s': System, x: Res, t: nat, res: Res)
    requires UnblockAllStep(s, s', x) && t < |s'.cells| && COLLECTOR < |s'.cells[t].ags|
    requires s'.cells[t].ags[COLLECTOR] == Act(ResumeJob, Done(res))
    ensures t < |s.cells| && s.cells[t] == s'.cells[t]
  {
    hide Asks, Select;
    match s.gc
    case UnPop(work) => if work != [] { AsksKeepsDone(s, s', work[|work| - 1], Begin(ResumeJob), t, res); }
    case UnBlock(_, q) => AsksKeepsDone(s, s', q, End(ResumeJob, x), t, res);
    case _ =>
  }

  /** An errand that begins is not done, one that ends is gone. */
  lemma AsksKeepsDone(s: System, s': System, q: nat, ev: AEv, t: nat, res: Res)
    requires Asks(s, s', q, ev) && !ev.Step? && t < |s'.cells| && COLLECTOR < |s'.cells[t].ags|
    requires s'.cells[t].ags[COLLECTOR] == Act(ResumeJob, Done(res))
    ensures t < |s.cells| && s.cells[t] == s'.cells[t]
  {
    hide AgentNext;
    AsksFrame(s, s', q, ev);
  }

  lemma {:induction false} DoneWasCleared(run: seq<System>, labels: seq<Label>, i: nat, t: nat, res: Res)
    requires IsRun(run, labels) && i < |run| && t < |run[i].cells| && COLLECTOR < |run[i].cells[t].ags|
    requires run[i].cells[t].ags[COLLECTOR] == Act(ResumeJob, Done(res))
    ensures WasCleared(run, i, t) && run[i].gc.UnBlock?
  {
    hide Next, CellInv, GcFacts;
    RunInv(run, labels, i);
    assert CollectorAt(run[i].cells[t], t, CurrentErrand(run[i].gc));
    if i > 0 {
      RunInv(run, labels, i - 1);
      DoneComesFrom(run[i - 1], run[i], labels[i - 1], t, res);
      if run[i - 1].cells[t].ags[COLLECTOR] == Act(ResumeJob, Done(res)) {
        DoneWasCleared(run, labels, i - 1, t, res);
        Extended(run, i - 1, t);
      } else {
        ResumeClears(run, labels, i - 1, t, res);
        assert ClearedAt(run, i - 1, i, t);
      }
    }
  }

  lemma Extended(run: seq<System>, i: nat, t: nat)
    requires i + 1 < |run| && WasCleared(run, i, t) && Resuming(run[i + 1])
    ensures WasCleared(run, i + 1, t)
  {
    var j :| 0 <= j < i && ClearedAt(run, j, i, t);
    assert ClearedAt(run, j, i + 1, t);
  }

  /** Who is new on the record has just been dealt with. */
  lemma ResumedComesFrom(s: System, s': System, l: Label, t: nat)
    requires SysInv(s) && Next(s, s', l) && Resuming(s') && t in s'.found.resumed
    ensures Resuming(s)
    ensures t !in s.found.resumed ==> s.gc.UnBlock? && s.gc.t == t && t < |s.cells| && COLLECTOR < |s.cells[t].ags|
    ensures t !in s.found.resumed ==> exists res :: s.cells[t].ags[COLLECTOR] == Act(ResumeJob, Done(res))
  {
    hide OwnerNext, AgentNext, CellInv, GcFacts, Select, Touches;
    if l.LCollector? && s.gc.UnBlock? { AsksFrame(s, s', s.gc.t, End(ResumeJob, l.res)); }
  }

  lemma {:induction false} ResumedWasCleared(run: seq<System>, labels: seq<Label>, i: nat, t: nat)
    requires IsRun(run, labels) && i < |run| && Resuming(run[i]) && t in run[i].found.resumed
    ensures WasCleared(run, i, t)
  {
    hide Next, SysInv;
    if i > 0 {
      RunInv(run, labels, i - 1);
      ResumedComesFrom(run[i - 1], run[i], labels[i - 1], t);
      if t in run[i - 1].found.resumed {
        ResumedWasCleared(run, labels, i - 1, t);
      } else {
        var res :| run[i - 1].cells[t].ags[COLLECTOR] == Act(ResumeJob, Done(res));
        DoneWasCleared(run, labels, i - 1, t, res);
      }
      Extended(run, i - 1, t);
    }
  }

  /** When `unblock_all_mutators_for_gc` is about to return, it has been through every registered thread
      but the collector's own: each was left, at some point of this resume, with neither a GC request
      nor the GC flag, and with everybody asleep on its monitor notified. */
  lemma EverybodyIsResumed(run: seq<System>, labels: seq<Label>, i: nat, k: nat)
    requires IsRun(run, labels) && i < |run| && run[i].gc == UnPop([]) && k < |run[i].registry|
    ensures run[i].registry[k] < |run[i].cells|
    ensures IsResumable(run[i].cells[run[i].registry[k]]) ==> WasCleared(run, i, run[i].registry[k])
  {
    RunInv(run, labels, i);
    if IsResumable(run[i].cells[run[i].registry[k]]) { ResumedWasCleared(run, labels, i, run[i].registry[k]); }
  }
}

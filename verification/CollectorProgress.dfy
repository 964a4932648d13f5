/** The loop of `block_all_mutators_for_gc` comes to its end: every pass does, and another one follows only
    if threads have registered meanwhile, or some were found `New`. */
module CollectorProgress {
  import opened StopTheWorld
  import opened System
  import opened SystemInvariant
  import opened ThreadCell
  import opened ThreadProgram

  /** Inside a pass, with the registry locked and its snapshot taken. */
  predicate InPass(gc: GcPc) {
    gc.GcRetain? || gc.GcAsk? || gc.GcTest? || gc.GcPop? || gc.GcBlock?
  }

  /** Steps of the collector itself to the end of the pass, at most; the requests it makes are steps of
      an agent. */
  function PassRank(gc: GcPc): int {
    match gc
    case GcRetain(list, i, kept, _) => 2 * |kept| + 4 * (|list| - i) + 3
    case GcAsk(list, i, kept, _) => 2 * |kept| + 4 * (|list| - i) + 2
    case GcTest(kept, _) => 2 * |kept| + 2
    case GcPop(work, _) => 2 * |work| + 1
    case GcBlock(work, _, _) => 2 * |work| + 2
    case _ => 0
  }

  /** A pass ends with the exit from the loop, if it has kept nobody, or with the next pass, once it has
      been through everybody it kept. */
  lemma PassGoesDown(s: System, s': System, res: Res)
    requires CollectorStep(s, s', res) && InPass(s.gc) && (s.gc.GcRetain? ==> s.gc.i <= |s.gc.list|)
    ensures InPass(s'.gc) ==> PassRank(s'.gc) < PassRank(s.gc) && s'.gc.seen == s.gc.seen
    ensures !InPass(s'.gc) ==>
              (s.gc == GcTest([], s.gc.seen) && s'.gc == GcRelock(|s.registry|))
              || (s.gc == GcPop([], s.gc.seen) && s'.gc == GcLock(|s.registry|))
  {
    hide Asks, Select;
  }

  /** Steps of the collector itself from `i` to `j`. */
  function CollectorSteps(labels: seq<Label>, i: nat, j: nat): (n: nat)
    requires i <= j <= |labels|
    decreases j
  {
    if i == j then 0 else CollectorSteps(labels, i, j - 1) + if labels[j - 1].LCollector? then 1 else 0
  }

  lemma OthersLeaveGc(s: System, s': System, l: Label)
    requires Next(s, s', l) && !l.LCollector?
    ensures s'.gc == s.gc && s'.found == s.found && |s.registry| <= |s'.registry|
  {
    hide OwnerNext, AgentNext;
  }

  lemma InvBounds(s: System)
    requires SysInv(s)
    ensures s.gc.GcRetain? ==> s.gc.i <= |s.gc.list|
    ensures InPass(s.gc) ==> s.gc.seen <= |s.registry|
  {
  }

  /** A pass takes no more steps than that, whatever the threads and the other requesters do. */
  lemma {:induction false} PassEnds(run: seq<System>, labels: seq<Label>, i: nat, j: nat)
    requires IsRun(run, labels) && i <= j < |run| && forall k :: i <= k <= j ==> InPass(run[k].gc)
    ensures PassRank(run[j].gc) + CollectorSteps(labels, i, j) <= PassRank(run[i].gc)
    decreases j
  {
    hide Next, SysInv, PassRank, InPass;
    if i < j {
      PassEnds(run, labels, i, j - 1);
      RunInv(run, labels, j - 1);
      InvBounds(run[j - 1]);
      assert Next(run[j - 1], run[j], labels[j - 1]);
      if labels[j - 1].LCollector? {
        CollectorLabel(run[j - 1], run[j], labels[j - 1]);
        PassGoesDown(run[j - 1], run[j], labels[j - 1].res);
      } else {
        OthersLeaveGc(run[j - 1], run[j], labels[j - 1]);
      }
    }
  }

  lemma CollectorLabel(s: System, s': System, l: Label)
    requires Next(s, s', l) && l.LCollector?
    ensures CollectorStep(s, s', l.res)
  {
  }

  /** The pass has kept somebody, so somebody is there that the previous pass has not seen. */
  predicate SomebodyNew(s: System) {
    s.gc.GcPop? || s.gc.GcBlock? ==> s.gc.seen < |s.registry| || s.found.ever != {}
  }

  lemma CollectorKeepsNew(s: System, s': System, res: Res)
    requires CollectorStep(s, s', res) && SomebodyNew(s)
    requires s.gc.GcTest? && s.gc.kept != [] ==> s.gc.seen < |s.registry| || s.found.ever != {}
    ensures SomebodyNew(s')
  {
    hide AgentNext, Select;
  }

  lemma {:induction false} RunSomebodyNew(run: seq<System>, labels: seq<Label>, i: nat)
    requires IsRun(run, labels) && i < |run|
    ensures SomebodyNew(run[i])
  {
    hide Next, SysInv;
    if i > 0 {
      RunSomebodyNew(run, labels, i - 1);
      assert Next(run[i - 1], run[i], labels[i - 1]);
      if labels[i - 1].LCollector? {
        if run[i - 1].gc.GcTest? { SecondPassFindsNobody(run, labels, i - 1); }
        CollectorLabel(run[i - 1], run[i], labels[i - 1]);
        CollectorKeepsNew(run[i - 1], run[i], labels[i - 1].res);
      } else {
        OthersLeaveGc(run[i - 1], run[i], labels[i - 1]);
      }
    }
  }

  /** A pass that is followed by another one leaves the loop with more threads seen than before, unless
      somebody was found `New`.  So with nobody left `New` the passes are at most two more than the
      threads that register during the call. */
  lemma AnotherPassSeesMore(run: seq<System>, labels: seq<Label>, i: nat)
    requires IsRun(run, labels) && i < |labels| && InPass(run[i].gc) && run[i + 1].gc.GcLock?
    ensures run[i + 1].gc.seen == |run[i].registry| && run[i].gc.seen <= run[i + 1].gc.seen
    ensures run[i].found.ever == {} ==> run[i].gc.seen < run[i + 1].gc.seen
  {
    hide SysInv, Next;
    RunInv(run, labels, i);
    InvBounds(run[i]);
    RunSomebodyNew(run, labels, i);
    assert Next(run[i], run[i + 1], labels[i]);
    if labels[i].LCollector? {
      CollectorLabel(run[i], run[i + 1], labels[i]);
      PassGoesDown(run[i], run[i + 1], labels[i].res);
    } else {
      OthersLeaveGc(run[i], run[i + 1], labels[i]);
    }
  }
}

/** What a taken yieldpoint, a self-block and the entry to native code do with a pending request, and what
    the count of yieldpoints counts. */
module Acknowledge {
  import opened MonitorDiscipline
  import opened RequestFacts
  import opened StopTheWorld
  import opened System
  import opened SystemInvariant
  import opened ThreadCell
  import opened ThreadProgram
  import opened WakeFacts
  import opened Yieldpoints

  // ---------------------------------------------------------------- obligations

  /** The thread holds its monitor, adapter `a` has a request, and the code at hand has to deal with it. */
  predicate Owes(s: Shared, pc: OPc, a: nat) {
    a < |s.req| == |s.blk| &&
    match pc
    case Yp(YTest) => s.req[a] && s.take != 0
    case Yp(YClear) => s.req[a]
    case Sb(SRequest(b)) => a == b
    case En(_, NStatus) => s.req[a]
    case _ => s.req[a] && WillAck(pc, a)
  }

  lemma OwnerOwes(s: Shared, pc: OPc, act: Action, p: OPc, a: nat)
    requires OwnerEdge(s, pc, act, p) && Owes(s, pc, a) && AckFits(s, pc)
    ensures ODepth(pc) > 0
    ensures var t := Do(s, Owner, act); Get(t.blk, a) || Owes(t, p, a)
  {
    hide CheckBlockEdge, EnterEdge;
    match pc
    case Cb(r, b) => CheckBlockOwes(s, r, b, act, p, a);
    case En(e, n) => EnterOwes(s, e, n, act, p, a);
    case Run =>
    case _ =>
  }

  lemma CheckBlockOwes(s: Shared, r: Ret, b: CbPc, act: Action, p: OPc, a: nat)
    requires CheckBlockEdge(s, r, b, act, p) && Owes(s, Cb(r, b), a) && AckFits(s, Cb(r, b))
    ensures ODepth(Cb(r, b)) > 0
    ensures var t := Do(s, Owner, act); Get(t.blk, a) || Owes(t, p, a)
  {
  }

  lemma EnterOwes(s: Shared, e: Enter, n: EnPc, act: Action, p: OPc, a: nat)
    requires EnterEdge(s, e, n, act, p) && Owes(s, En(e, n), a) && AckFits(s, En(e, n))
    ensures ODepth(En(e, n)) > 0
    ensures var t := Do(s, Owner, act); Get(t.blk, a) || Owes(t, p, a)
  {
  }

  lemma OwesInside(s: Shared, pc: OPc, a: nat)
    requires Owes(s, pc, a)
    ensures ODepth(pc) > 0 && pc != Unborn
  {
  }

  predicate OwesAt(s: System, t: nat, a: nat) {
    t < |s.cells| && Owes(s.cells[t].sh, s.cells[t].pc, a)
  }

  predicate BlockedAt(s: System, t: nat, a: nat) {
    t < |s.cells| && Get(s.cells[t].sh.blk, a)
  }

  /** While the thread holds its monitor no agent moves, so nobody can take the request away. */
  lemma NextOwes(s: System, s': System, l: Label, t: nat, a: nat)
    requires SysInv(s) && Next(s, s', l) && OwesAt(s, t, a)
    ensures OwesAt(s', t, a) || BlockedAt(s', t, a)
  {
    hide CellInv, OwnerEdge, AgentEdge, Owes, CollectorStep, Touches, GcFacts;
    var c := s.cells[t];
    OwesInside(c.sh, c.pc, a);
    match l
    case LThread(q, act) =>
      if q == t {
        assert AckFits(c.sh, c.pc) by { CellAck(c); }
        OwnerOwes(c.sh, c.pc, act, s'.cells[t].pc, a);
      }
    case LAgent(q, r, ev) => if q == t { AgentWaits(c, s'.cells[t], r, ev); }
    case LCollector(res) => CollectorKeepsShared(s, s', res);
    case _ =>
  }

  lemma CellAck(c: Cell)
    requires CellInv(c)
    ensures AckFits(c.sh, c.pc)
  {
  }

  lemma AgentWaits(c: Cell, c': Cell, r: nat, ev: AEv)
    requires CellInv(c) && AgentNext(c, c', r, ev) && ODepth(c.pc) > 0
    ensures c'.sh == c.sh && c'.pc == c.pc
  {
    hide AgentEdge, OwnerInv;
    if ev.Step? {
      assert AgentInv(c, r);
      AgentAlone(c, r, ev.act, ev.p);
    }
  }

  /** The thread blocks itself for the adapter strictly after `i` and not after `j`. */
  ghost predicate BlocksBetween(run: seq<System>, i: nat, j: nat, t: nat, a: nat) {
    exists k: nat :: i < k <= j < |run| && BlockedAt(run[k], t, a)
  }

  lemma {:induction false} OwesUntilBlocked(run: seq<System>, labels: seq<Label>, i: nat, j: nat, t: nat, a: nat)
    requires IsRun(run, labels) && i <= j < |run| && OwesAt(run[i], t, a)
    ensures OwesAt(run[j], t, a) || BlocksBetween(run, i, j, t, a)
    decreases j
  {
    hide Next, SysInv, OwesAt, BlockedAt;
    if i < j {
      OwesUntilBlocked(run, labels, i, j - 1, t, a);
      if OwesAt(run[j - 1], t, a) {
        RunInv(run, labels, j - 1);
        NextOwes(run[j - 1], run[j], labels[j - 1], t, a);
      } else {
        var k: nat :| i < k <= j - 1 && BlockedAt(run[k], t, a);
        assert i < k <= j && BlockedAt(run[k], t, a);
      }
    }
  }

  /** What is owed is done before the thread gives its monitor up. */
  lemma ObligationIsMet(run: seq<System>, labels: seq<Label>, i: nat, j: nat, t: nat, a: nat)
    requires IsRun(run, labels) && i <= j < |run| && OwesAt(run[i], t, a)
    requires t < |run[j].cells| && ODepth(run[j].cells[t].pc) == 0
    ensures BlocksBetween(run, i, j, t, a)
  {
    hide SysInv, Next, BlocksBetween;
    OwesUntilBlocked(run, labels, i, j, t, a);
    if OwesAt(run[j], t, a) { OwesInside(run[j].cells[t].sh, run[j].cells[t].pc, a); }
  }

  // ---------------------------------------------------------------- the callers

  /** A yieldpoint that finds `take_yieldpoint` set blocks the thread for every adapter with a request
      before it returns to managed code. */
  lemma TakenYieldpointBlocks(run: seq<System>, labels: seq<Label>, i: nat, j: nat, t: nat, a: nat)
    requires IsRun(run, labels) && i < j < |run| && t < |run[i].cells| && t < |run[j].cells|
    requires run[i].cells[t].pc == Yp(YTest) && run[i].cells[t].sh.take != 0 && Get(run[i].cells[t].sh.req, a)
    requires run[j].cells[t].pc == Run
    ensures BlocksBetween(run, i, j, t, a)
  {
    hide Next, BlocksBetween;
    RunInv(run, labels, i);
    assert OwnerInv(run[i].cells[t]) by { assert CellInv(run[i].cells[t]); }
    ObligationIsMet(run, labels, i, j, t, a);
  }

  /** Which it does find whenever there is a request, in every run without a stranding step so far. */
  lemma EnabledYieldpointBlocks(run: seq<System>, labels: seq<Label>, i: nat, j: nat, t: nat, a: nat)
    requires IsRun(run, labels) && i < j < |run| && t < |run[0].cells|
    requires forall k :: 0 <= k < i ==> !StrandsAt(run[k], labels[k], t)
    requires t < |run[i].cells| && t < |run[j].cells|
    requires run[i].cells[t].pc == Yp(YTest) && Get(run[i].cells[t].sh.req, a) && run[j].cells[t].pc == Run
    ensures BlocksBetween(run, i, j, t, a)
  {
    hide Next, BlocksBetween, SysInv;
    RunRestores(run, labels, i, t);
    RunInv(run, labels, i);
    CellInvAt(run[i], t);
    TestFindsTake(run[i].cells[t], a);
    TakenYieldpointBlocks(run, labels, i, j, t, a);
  }

  lemma TestFindsTake(c: Cell, a: nat)
    requires CellInv(c) && Restored(c.sh, c.pc) && DeferFits(c.sh, c.pc) && c.pc == Yp(YTest) && Get(c.sh.req, a)
    ensures c.sh.take != 0
  {
    assert ReqOk(c.sh, c.pc, a, HolderBusy(c, a));
  }

  /** A thread that blocks itself is blocked for the adapter before it returns to managed code. */
  lemma SelfBlockBlocks(run: seq<System>, labels: seq<Label>, i: nat, j: nat, t: nat, a: nat)
    requires IsRun(run, labels) && i < j < |run| && t < |run[i].cells| && t < |run[j].cells|
    requires run[i].cells[t].pc == Sb(SRequest(a)) && a < |run[i].cells[t].sh.req| && run[j].cells[t].pc == Run
    ensures BlocksBetween(run, i, j, t, a)
  {
    hide Next, BlocksBetween;
    RunInv(run, labels, i);
    assert OwnerInv(run[i].cells[t]) by { assert CellInv(run[i].cells[t]); }
    ObligationIsMet(run, labels, i, j, t, a);
  }

  /** A thread that enters native code the slow way is blocked for every adapter with a request before
      it gives its monitor up. */
  lemma NativeEntryBlocks(run: seq<System>, labels: seq<Label>, i: nat, j: nat, t: nat, a: nat)
    requires IsRun(run, labels) && i < j < |run| && t < |run[i].cells| && t < |run[j].cells|
    requires run[i].cells[t].pc.En? && run[i].cells[t].pc.n == NStatus && Get(run[i].cells[t].sh.req, a)
    requires ODepth(run[j].cells[t].pc) == 0
    ensures BlocksBetween(run, i, j, t, a)
  {
    hide Next, BlocksBetween;
    RunInv(run, labels, i);
    assert OwnerInv(run[i].cells[t]) by { assert CellInv(run[i].cells[t]); }
    ObligationIsMet(run, labels, i, j, t, a);
  }

  // ---------------------------------------------------------------- enabled and disabled yieldpoints

  /** On its way from the head of a yieldpoint to the test. */
  predicate HeadsForTest(s: Shared, pc: OPc) {
    (pc == Yp(YEnter) && s.count == 1) || pc == Yp(YLock)
  }

  /** On its way from the head of a yieldpoint to the record of a deferred request. */
  predicate HeadsForRecord(s: Shared, pc: OPc) {
    (pc == Yp(YEnter) && s.count != 1) || pc == Yp(YDeferPending)
  }

  predicate HeadsAt(s: System, t: nat, deferred: bool) {
    t < |s.cells| && var c := s.cells[t]; if deferred then HeadsForRecord(c.sh, c.pc) else HeadsForTest(c.sh, c.pc)
  }

  /** At the test, or with the request on record. */
  predicate ArrivedAt(s: System, t: nat, deferred: bool) {
    && t < |s.cells|
    && var c := s.cells[t];
       if deferred then c.pc == Yp(YDeferClear) && c.sh.pending else c.pc == Yp(YTest)
  }

  lemma NextHeads(s: System, s': System, l: Label, t: nat, deferred: bool)
    requires Next(s, s', l) && HeadsAt(s, t, deferred)
    ensures HeadsAt(s', t, deferred) || ArrivedAt(s', t, deferred)
  {
    hide AgentEdge, CollectorStep, Touches, CheckBlockEdge, EnterEdge;
    if !(l.LThread? && l.t == t) { OthersLeaveCount(s, s', l, t); }
  }

  /** With yieldpoints enabled, a yieldpoint comes to the test whether it is to be taken before it returns
      to managed code; with yieldpoints disabled it leaves a record that it has been deferred. */
  lemma {:induction false} YieldpointArrives(run: seq<System>, labels: seq<Label>, i: nat, j: nat, t: nat,
                                             deferred: bool)
    requires IsRun(run, labels) && i <= j < |run| && t < |run[i].cells| && t < |run[j].cells|
    requires run[i].cells[t].pc == Yp(YEnter) && (deferred <==> run[i].cells[t].sh.count != 1)
    ensures HeadsAt(run[j], t, deferred) || exists k: nat :: i < k <= j && ArrivedAt(run[k], t, deferred)
    ensures run[j].cells[t].pc == Run ==> exists k: nat :: i < k < j && ArrivedAt(run[k], t, deferred)
    decreases j
  {
    hide Next, HeadsForTest, HeadsForRecord;
    if i < j {
      CellsStay(run, labels, i, j - 1);
      YieldpointArrives(run, labels, i, j - 1, t, deferred);
      if HeadsAt(run[j - 1], t, deferred) {
        NextHeads(run[j - 1], run[j], labels[j - 1], t, deferred);
      }
    }
    HeadsElsewhere(run[j].cells[t], deferred);
    if i == j { HeadsFirst(run[i].cells[t], deferred); }
  }

  lemma HeadsElsewhere(c: Cell, deferred: bool)
    ensures c.pc == Run ==> !HeadsForTest(c.sh, c.pc) && !HeadsForRecord(c.sh, c.pc)
  {
  }

  lemma HeadsFirst(c: Cell, deferred: bool)
    requires c.pc == Yp(YEnter) && (deferred <==> c.sh.count != 1)
    ensures if deferred then HeadsForRecord(c.sh, c.pc) else HeadsForTest(c.sh, c.pc)
  {
  }

  lemma {:induction false} CellsStay(run: seq<System>, labels: seq<Label>, i: nat, j: nat)
    requires IsRun(run, labels) && i <= j < |run|
    ensures |run[j].cells| == |run[i].cells|
    decreases j
  {
    hide Next, Init;
    if i < j {
      CellsStay(run, labels, i, j - 1);
      NextCells(run[j - 1], run[j], labels[j - 1]);
    }
  }

  lemma NextCells(s: System, s': System, l: Label)
    requires Next(s, s', l)
    ensures |s'.cells| == |s.cells|
  {
    hide OwnerNext, AgentNext, Touches, Select;
  }

  // ---------------------------------------------------------------- the count of yieldpoints

  /** Calls of `enable_yieldpoints` that the thread has begun before `i`. */
  function Enables(run: seq<System>, i: nat, t: nat): int
    requires i < |run|
  {
    if i == 0 then 0
    else Enables(run, i - 1, t) + if EnablesIn(run[i - 1], run[i], t) then 1 else 0
  }

  predicate EnablesIn(s: System, s': System, t: nat) {
    t < |s.cells| && t < |s'.cells| && s.cells[t].pc.Ey? && s.cells[t].pc.v == EAdd && s'.cells[t].pc != s.cells[t].pc
  }

  /** Calls of `disable_yieldpoints` before `i`. */
  function Disables(run: seq<System>, labels: seq<Label>, i: nat, t: nat): int
    requires i < |run| && i <= |labels|
  {
    if i == 0 then 0 else Disables(run, labels, i - 1, t) + if DisablesIn(run[i - 1], labels[i - 1], t) then 1 else 0
  }

  predicate DisablesIn(s: System, l: Label, t: nat) {
    t < |s.cells| && s.cells[t].pc == Run && l.LThread? && l.t == t && l.act.AddCount?
  }

  lemma OwnerCounts(s: Shared, pc: OPc, act: Action, p: OPc)
    requires OwnerEdge(s, pc, act, p)
    ensures pc.Ey? && pc.v == EAdd ==> p != pc && act == AddCount(1)
    ensures act.AddCount? ==> (pc == Run && act.n == -1) || (pc.Ey? && pc.v == EAdd)
  {
    hide CheckBlockEdge, EnterEdge;
    match pc
    case Cb(r, b) => CheckBlockRestores(s, r, b, act, p);
    case En(e, n) => EnterRestores(s, e, n, act, p);
    case Run =>
    case _ =>
  }

  lemma NextCounts(s: System, s': System, l: Label, t: nat)
    requires Next(s, s', l) && t < |s.cells|
    ensures t < |s'.cells|
    ensures s'.cells[t].sh.count ==
            s.cells[t].sh.count + (if EnablesIn(s, s', t) then 1 else 0) - (if DisablesIn(s, l, t) then 1 else 0)
  {
    hide OwnerEdge, Touches, AgentStep, CollectorStep;
    if l.LThread? && l.t == t {
      OwnerCounts(s.cells[t].sh, s.cells[t].pc, l.act, s'.cells[t].pc);
    } else {
      OthersLeaveCount(s, s', l, t);
    }
  }

  /** Over every run, the count is the calls of `enable_yieldpoints` less those of `disable_yieldpoints`. */
  lemma {:induction false} CountIsBalance(run: seq<System>, labels: seq<Label>, i: nat, t: nat)
    requires IsRun(run, labels) && i < |run| && t < |run[0].cells|
    ensures t < |run[i].cells|
    ensures run[i].cells[t].sh.count == Enables(run, i, t) - Disables(run, labels, i, t)
  {
    hide Next, EnablesIn, DisablesIn;
    if i == 0 {
      assert Fresh(run[0].cells[t]);
    } else {
      CountIsBalance(run, labels, i - 1, t);
      NextCounts(run[i - 1], run[i], labels[i - 1], t);
    }
  }
}

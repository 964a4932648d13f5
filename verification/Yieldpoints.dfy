/** When a deferred yieldpoint comes back.  `enable_yieldpoints` restores it on the way from 0 to 1;
    a thread that has enabled them twice and gets back to 1 by `disable_yieldpoints` has to do
    without. */
module Yieldpoints {
  import opened MonitorDiscipline
  import opened StopTheWorld
  import opened System
  import opened ThreadCell
  import opened ThreadProgram

  /** Yieldpoints are enabled, or being enabled, only with no request left behind. */
  predicate Restored(s: Shared, pc: OPc) {
    s.count == 1 && s.pending ==> pc.Ey?
  }

  /** A yieldpoint is deferred with yieldpoints disabled, and looked into with yieldpoints enabled. */
  predicate DeferFits(s: Shared, pc: OPc) {
    && (pc == Yp(YDeferPending) || pc == Yp(YDeferClear) ==> s.count != 1)
    && (pc == Yp(YLock) || pc == Yp(YTest) ==> s.count == 1)
  }

  /** `disable_yieldpoints` from 2 to 1 with a request left behind. */
  predicate Strands(s: Shared, pc: OPc, act: Action) {
    pc == Run && act == AddCount(-1) && s.count == 2 && s.pending
  }

  lemma OwnerRestores(s: Shared, pc: OPc, act: Action, p: OPc)
    requires OwnerEdge(s, pc, act, p) && Restored(s, pc) && DeferFits(s, pc)
    ensures DeferFits(Do(s, Owner, act), p)
    ensures Restored(Do(s, Owner, act), p) <==> !Strands(s, pc, act)
  {
    hide CheckBlockEdge, EnterEdge, YieldpointEdge, LeaveEdge, EnableEdge;
    match pc
    case Ey(boot, v) => EnableRestores(s, boot, v, act, p);
    case Cb(r, b) => CheckBlockRestores(s, r, b, act, p);
    case En(e, n) => EnterRestores(s, e, n, act, p);
    case Yp(y) => YieldpointRestores(s, y, act, p);
    case Ln(k, x) => LeaveRestores(s, k, x, act, p);
    case Run =>
    case _ =>
  }

  lemma YieldpointRestores(s: Shared, y: YpPc, act: Action, p: OPc)
    requires YieldpointEdge(s, y, act, p) && Restored(s, Yp(y)) && DeferFits(s, Yp(y))
    ensures DeferFits(Do(s, Owner, act), p) && Restored(Do(s, Owner, act), p)
  {
  }

  lemma EnableRestores(s: Shared, boot: bool, v: EyPc, act: Action, p: OPc)
    requires EnableEdge(s, boot, v, act, p)
    ensures DeferFits(Do(s, Owner, act), p) && Restored(Do(s, Owner, act), p)
  {
  }

  lemma LeaveRestores(s: Shared, k: Leave, x: LnPc, act: Action, p: OPc)
    requires LeaveEdge(s, k, x, act, p)
    ensures !p.Ey? && !p.Yp? && !act.AddCount?
    ensures Do(s, Owner, act).count == s.count && Do(s, Owner, act).pending == s.pending
  {
  }

  lemma CheckBlockRestores(s: Shared, r: Ret, b: CbPc, act: Action, p: OPc)
    requires CheckBlockEdge(s, r, b, act, p)
    ensures !p.Ey? && (p.Yp? ==> p == Yp(YUnlock)) && !act.AddCount?
    ensures Do(s, Owner, act).count == s.count && Do(s, Owner, act).pending == s.pending
  {
  }

  lemma EnterRestores(s: Shared, e: Enter, n: EnPc, act: Action, p: OPc)
    requires EnterEdge(s, e, n, act, p)
    ensures !p.Ey? && (p.Yp? ==> p == Yp(YUnlock)) && !act.AddCount?
    ensures Do(s, Owner, act).count == s.count && Do(s, Owner, act).pending == s.pending
  {
  }

  lemma AgentRestores(s: Shared, j: Job, at: AtPc, act: Action, p: AtPc, w: Who)
    requires AgentEdge(s, j, at, act, p)
    ensures Do(s, w, act).count == s.count && Do(s, w, act).pending == s.pending
  {
  }

  // ---------------------------------------------------------------- runs

  predicate RestoredAt(s: System, t: nat) {
    t < |s.cells| ==> Restored(s.cells[t].sh, s.cells[t].pc)
  }

  predicate DeferFitsAt(s: System, t: nat) {
    t < |s.cells| ==> DeferFits(s.cells[t].sh, s.cells[t].pc)
  }

  predicate StrandsAt(s: System, l: Label, t: nat) {
    l.LThread? && l.t == t && t < |s.cells| && Strands(s.cells[t].sh, s.cells[t].pc, l.act)
  }

  /** Nobody but the thread touches its count and its record of a deferred request. */
  lemma OthersLeaveCount(s: System, s': System, l: Label, t: nat)
    requires Next(s, s', l) && t < |s.cells| && !(l.LThread? && l.t == t)
    ensures |s'.cells| == |s.cells|
    ensures s'.cells[t].sh.count == s.cells[t].sh.count && s'.cells[t].sh.pending == s.cells[t].sh.pending
    ensures s'.cells[t].pc == s.cells[t].pc || (s.cells[t].pc == Unborn && s'.cells[t].pc == Bt(BEnable))
  {
    hide OwnerEdge, AgentEdge, CollectorStep, Touches;
    match l
    case LAgent(q, r, ev) => AgentLeavesCount(s.cells[q], s'.cells[q], r, ev);
    case LCollector(res) => CollectorKeepsShared(s, s', res);
    case _ =>
  }

  lemma AgentLeavesCount(c: Cell, c': Cell, r: nat, ev: AEv)
    requires AgentNext(c, c', r, ev)
    ensures c'.sh.count == c.sh.count && c'.sh.pending == c.sh.pending && c'.pc == c.pc
  {
    hide AgentEdge;
    if ev.Step? { AgentRestores(c.sh, c.ags[r].j, c.ags[r].at, ev.act, ev.p, Agent(r)); }
  }

  lemma NextRestores(s: System, s': System, l: Label, t: nat)
    requires Next(s, s', l) && RestoredAt(s, t) && DeferFitsAt(s, t) && t < |s.cells|
    ensures t < |s'.cells| && DeferFitsAt(s', t)
    ensures RestoredAt(s', t) <==> !StrandsAt(s, l, t)
  {
    hide OwnerEdge, Touches;
    if l.LThread? && l.t == t {
      OwnerRestores(s.cells[t].sh, s.cells[t].pc, l.act, s'.cells[t].pc);
    } else {
      OthersLeaveCount(s, s', l, t);
    }
  }

  /** Up to the first stranding step. */
  lemma {:induction false} RunRestores(run: seq<System>, labels: seq<Label>, i: nat, t: nat)
    requires IsRun(run, labels) && i < |run| && t < |run[0].cells|
    requires forall j :: 0 <= j < i ==> !StrandsAt(run[j], labels[j], t)
    ensures t < |run[i].cells| && RestoredAt(run[i], t) && DeferFitsAt(run[i], t)
  {
    hide Next, RestoredAt, DeferFitsAt, StrandsAt;
    if i == 0 {
      StartRestored(run[0], t);
    } else {
      RunRestores(run, labels, i - 1, t);
      NextRestores(run[i - 1], run[i], labels[i - 1], t);
    }
  }

  lemma StartRestored(s: System, t: nat)
    requires Init(s) && t < |s.cells|
    ensures RestoredAt(s, t) && DeferFitsAt(s, t)
  {
    assert Fresh(s.cells[t]);
  }

  /** Throughout a run, enabled yieldpoints leave no deferred request behind exactly if the thread
      never goes from 2 to 1 with one. */
  lemma RestoredExactly(run: seq<System>, labels: seq<Label>, t: nat)
    requires IsRun(run, labels) && t < |run[0].cells|
    ensures (forall i :: 0 <= i < |run| ==> RestoredAt(run[i], t)) <==>
            (forall j :: 0 <= j < |labels| ==> !StrandsAt(run[j], labels[j], t))
  {
    hide Next, RestoredAt, DeferFitsAt, StrandsAt, Init;
    if forall j :: 0 <= j < |labels| ==> !StrandsAt(run[j], labels[j], t) {
      forall i | 0 <= i < |run| ensures RestoredAt(run[i], t) { RunRestores(run, labels, i, t); }
    } else {
      var j := FirstStranding(run, labels, t);
      RunRestores(run, labels, j, t);
      NextRestores(run[j], run[j + 1], labels[j], t);
    }
  }

  lemma FirstStranding(run: seq<System>, labels: seq<Label>, t: nat) returns (j: nat)
    requires |run| == |labels| + 1 && exists k :: 0 <= k < |labels| && StrandsAt(run[k], labels[k], t)
    ensures j < |labels| && StrandsAt(run[j], labels[j], t)
    ensures forall k :: 0 <= k < j ==> !StrandsAt(run[k], labels[k], t)
  {
    hide StrandsAt;
    j := 0;
    while !StrandsAt(run[j], labels[j], t)
      invariant j < |labels| && (forall k :: 0 <= k < j ==> !StrandsAt(run[k], labels[k], t))
      invariant exists k :: j <= k < |labels| && StrandsAt(run[k], labels[k], t)
      decreases |labels| - j
    {
      j := j + 1;
    }
  }

  /** A pending request on a started thread whose yieldpoints are enabled will be met by the very next
      yieldpoint: outside `enable_yieldpoints`, in every run without a stranding step so far. */
  lemma RequestIsTaken(run: seq<System>, labels: seq<Label>, i: nat, t: nat, a: nat)
    requires IsRun(run, labels) && i < |run| && t < |run[0].cells|
    requires forall j :: 0 <= j < i ==> !StrandsAt(run[j], labels[j], t)
    ensures t < |run[i].cells|
    ensures var c := run[i].cells[t];
            Get(c.sh.req, a) && (c.started || c.sh.status != New) && !c.sh.about && ODepth(c.pc) == 0
              && !HolderBusy(c, a) && c.sh.count == 1 && !c.pc.Ey? ==>
              c.sh.status == InManagedToBlock && c.sh.take != 0
  {
    RunRestores(run, labels, i, t);
    NoLostStopRequest(run, labels, i, t, a);
  }

  /** In particular wherever the count has never gone beyond 1. */
  lemma RequestIsTakenUpToOne(run: seq<System>, labels: seq<Label>, i: nat, t: nat, a: nat)
    requires IsRun(run, labels) && i < |run| && t < |run[0].cells|
    requires forall j :: 0 <= j < i && t < |run[j].cells| ==> run[j].cells[t].sh.count <= 1
    ensures t < |run[i].cells|
    ensures var c := run[i].cells[t];
            Get(c.sh.req, a) && (c.started || c.sh.status != New) && !c.sh.about && ODepth(c.pc) == 0
              && !HolderBusy(c, a) && c.sh.count == 1 && !c.pc.Ey? ==>
              c.sh.status == InManagedToBlock && c.sh.take != 0
  {
    forall j | 0 <= j < i ensures !StrandsAt(run[j], labels[j], t) {
    }
    RequestIsTaken(run, labels, i, t, a);
  }
}

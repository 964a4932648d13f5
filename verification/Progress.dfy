/** Operations come to their end: while nobody asks a thread to block, and nothing keeps it blocked, each
    of its own steps brings the operation it is in nearer to its return. */
module Progress {
  import opened MonitorDiscipline
  import opened Options
  import opened StopFacts
  import opened StopTheWorld
  import opened System
  import opened SystemInvariant
  import opened ThreadCell
  import opened ThreadProgram
  import opened WakeFacts

  /** No request and no blocked flag. */
  predicate Released(s: Shared) {
    NoRequest(s) && !AnyBlocked(s)
  }

  /** Between operations, or about to ask itself to block. */
  predicate AtRest(p: OPc) {
    p == Run || p == Native || p == Unborn || p == Dead || (p.Sb? && !p.s.SUnlock?)
  }

  // ---------------------------------------------------------------- steps to the return

  function CheckBlockRank(n: nat, b: CbPc): nat {
    match b
    case CUnlock => 1
    case CStatus => 2
    case CTest => 3
    case CNotify => 4
    case CAck(i, _) => if i < n then 5 + n - i else 5
    case _ => 6 + n
  }

  /** After `check_block` or `leave_native`: to the queue of a lock again. */
  function LeaveRank(k: Leave): nat {
    if k.IntoRelock? then 5 else 0
  }

  /** After `enter_native`. */
  function EnteredRank(n: nat, st: Status, e: Enter): nat {
    match e
    case IntoNative => 0
    case IntoQueue(_) => if st == InNative then 3 else 15 + n
    case IntoRegistry => 10 + n
  }

  function EnterRank(n: nat, st: Status, e: Enter, x: EnPc): nat {
    match x
    case NLoad =>
      if st == InManaged then 2 + EnteredRank(n, InNative, e) else 6 + n + EnteredRank(n, BlockedInNative, e)
    case NCas =>
      if st == InManaged then 1 + EnteredRank(n, InNative, e) else 7 + n + EnteredRank(n, BlockedInNative, e)
    case NLock => 5 + n + EnteredRank(n, BlockedInNative, e)
    case NStatus => 4 + n + EnteredRank(n, BlockedInNative, e)
    case NAck(i, _) => (if i < n then 3 + n - i else 3) + EnteredRank(n, BlockedInNative, e)
    case NAckClear(i) => 4 + n
    case NNotify => 2 + EnteredRank(n, BlockedInNative, e)
    case NUnlock => 1 + EnteredRank(n, BlockedInNative, e)
  }

  function LeavingRank(n: nat, st: Status, k: Leave, x: LnPc): nat {
    if st == InNative then LeaveRank(k) + (if x == LLoad then 2 else 1)
    else LeaveRank(k) + n + (if x == LLoad then 7 else 8)
  }

  function HandshakeRank(n: nat, st: Status, h: HlPc): nat {
    match h
    case HQueued => if st == InNative then 3 else 15 + n
    case HLoad => if st == InNative then 2 else 14 + n
    case HCas => if st == InNative then 1 else 15 + n
    case HDrop => if st == InNative then 8 else 13 + n
  }

  /** Own steps to the end of the operation, at most. */
  function Rank(n: nat, st: Status, pc: OPc): nat {
    match pc
    case Yp(y) =>
      (match y
       case YUnlock => 1
       case YDeferClear => 1
       case YDeferPending => 2
       case YClear => 8 + n
       case YTest => 9 + n
       case YLock => 10 + n
       case YEnter => 11 + n)
    case Cb(r, b) => CheckBlockRank(n, b) + if r.FromNative? then LeaveRank(r.k) else 1
    case En(e, x) => EnterRank(n, st, e, x)
    case Ln(k, x) => LeavingRank(n, st, k, x)
    case Hl(_, h) => HandshakeRank(n, st, h)
    case Rg(native, g) =>
      (if native then 7 + n else 0) + (match g case GQueued => 3 case GPush => 2 case GUnlock => 1)
    case Ey(boot, v) =>
      (if boot then 20 + 2 * n else 0)
        + (match v case EAdd => 5 case ETest => 4 case EPending => 3 case ETake => 2 case EClear => 1)
    case Bt(b) => 2 * n + (match b case BEnable => 26 case BSweep => 20 case BSwept => 19 case BPark => 18)
    case Tm(t) => (match t case TLock => 4 case TAbout => 3 case TNotify => 2 case TUnlock => 1)
    case Sb(u) => if u == SUnlock then 1 else 0
    case _ => 0
  }

  function RankOf(c: Cell): nat {
    Rank(|c.sh.req|, c.sh.status, c.pc)
  }

  lemma RankIsPositive(n: nat, st: Status, pc: OPc)
    ensures Rank(n, st, pc) == 0 <==> AtRest(pc)
  {
  }

  /** Each own step of an operation that nobody disturbs lowers the rank. */
  lemma OwnerGoesDown(s: Shared, pc: OPc, act: Action, p: OPc)
    requires OwnerEdge(s, pc, act, p) && !AtRest(pc) && Released(s) && AckFits(s, pc) && StatusFits(s.status, pc)
    ensures var t := Do(s, Owner, act); |t.req| == |s.req| && Rank(|t.req|, t.status, p) < Rank(|s.req|, s.status, pc)
  {
    hide CheckBlockEdge, EnterEdge, LeaveEdge, HandshakeLockEdge, YieldpointEdge, EnableEdge, BootEdge, RegisterEdge,
      Released;
    hide Rank;
    match pc
    case Yp(y) => YieldpointGoesDown(s, y, act, p);
    case Ey(boot, v) => EnableGoesDown(s, boot, v, act, p);
    case Bt(b) => BootGoesDown(s, b, act, p);
    case Rg(native, g) => RegisterGoesDown(s, native, g, act, p);
    case Tm(u) => TerminateGoesDown(s, u, act, p);
    case Cb(r, b) => CheckBlockGoesDown(s, r, b, act, p);
    case En(e, x) => EnterGoesDown(s, e, x, act, p);
    case Ln(k, x) => LeaveGoesDown(s, k, x, act, p);
    case Hl(l, h) => HandshakeGoesDown(s, l, h, act, p);
    case Sb(u) => RankAtSelfBlock(|s.req|, s.status);
    case _ =>
  }

  lemma RankAtSelfBlock(n: nat, st: Status)
    ensures Rank(n, st, Run) < Rank(n, st, Sb(SUnlock))
  {
  }

  lemma YieldpointGoesDown(s: Shared, y: YpPc, act: Action, p: OPc)
    requires YieldpointEdge(s, y, act, p)
    ensures var t := Do(s, Owner, act);
            |t.req| == |s.req| && Rank(|t.req|, t.status, p) < Rank(|s.req|, s.status, Yp(y))
  {
  }

  lemma EnableGoesDown(s: Shared, boot: bool, v: EyPc, act: Action, p: OPc)
    requires EnableEdge(s, boot, v, act, p)
    ensures var t := Do(s, Owner, act);
            |t.req| == |s.req| && Rank(|t.req|, t.status, p) < Rank(|s.req|, s.status, Ey(boot, v))
  {
  }

  lemma BootGoesDown(s: Shared, b: BootPc, act: Action, p: OPc)
    requires BootEdge(s, b, act, p)
    ensures var t := Do(s, Owner, act);
            |t.req| == |s.req| && Rank(|t.req|, t.status, p) < Rank(|s.req|, s.status, Bt(b))
  {
  }

  lemma RegisterGoesDown(s: Shared, native: bool, g: RgPc, act: Action, p: OPc)
    requires RegisterEdge(native, g, act, p)
    ensures var t := Do(s, Owner, act);
            |t.req| == |s.req| && Rank(|t.req|, t.status, p) < Rank(|s.req|, s.status, Rg(native, g))
  {
  }

  lemma TerminateGoesDown(s: Shared, u: TmPc, act: Action, p: OPc)
    requires TerminateEdge(u, act, p)
    ensures var t := Do(s, Owner, act);
            |t.req| == |s.req| && Rank(|t.req|, t.status, p) < Rank(|s.req|, s.status, Tm(u))
  {
  }

  lemma CheckBlockGoesDown(s: Shared, r: Ret, b: CbPc, act: Action, p: OPc)
    requires CheckBlockEdge(s, r, b, act, p) && Released(s) && AckFits(s, Cb(r, b)) && StatusFits(s.status, Cb(r, b))
    ensures var t := Do(s, Owner, act);
            |t.req| == |s.req| && Rank(|t.req|, t.status, p) < Rank(|s.req|, s.status, Cb(r, b))
  {
  }

  lemma EnterGoesDown(s: Shared, e: Enter, x: EnPc, act: Action, p: OPc)
    requires EnterEdge(s, e, x, act, p) && Released(s) && AckFits(s, En(e, x)) && StatusFits(s.status, En(e, x))
    ensures var t := Do(s, Owner, act);
            |t.req| == |s.req| && Rank(|t.req|, t.status, p) < Rank(|s.req|, s.status, En(e, x))
  {
  }

  lemma LeaveGoesDown(s: Shared, k: Leave, x: LnPc, act: Action, p: OPc)
    requires LeaveEdge(s, k, x, act, p) && StatusFits(s.status, Ln(k, x))
    ensures var t := Do(s, Owner, act);
            |t.req| == |s.req| && Rank(|t.req|, t.status, p) < Rank(|s.req|, s.status, Ln(k, x))
  {
  }

  lemma HandshakeGoesDown(s: Shared, l: nat, h: HlPc, act: Action, p: OPc)
    requires HandshakeLockEdge(s, l, h, act, p) && StatusFits(s.status, Hl(l, h))
    ensures var t := Do(s, Owner, act);
            |t.req| == |s.req| && Rank(|t.req|, t.status, p) < Rank(|s.req|, s.status, Hl(l, h))
  {
  }

  // ---------------------------------------------------------------- what others do meanwhile

  /** Whoever changes the status of a thread has a request pending on it. */
  lemma AgentKeepsRank(c: Cell, c': Cell, r: nat, ev: AEv)
    requires CellInv(c) && AgentNext(c, c', r, ev) && Released(c.sh)
    ensures RankOf(c') == RankOf(c)
  {
    hide OwnerInv;
    if ev.Step? {
      assert AgentInv(c, r);
      RequestIsSeen(c.sh, r, c.ags[r].j, c.ags[r].at, ev.act, ev.p);
    }
  }

  lemma RequestIsSeen(s: Shared, r: nat, j: Job, at: AtPc, act: Action, p: AtPc)
    requires AgentEdge(s, j, at, act, p) && AtFits(j, at) && AskFits(s, j, at) && Released(s)
    ensures Do(s, Agent(r), act).status == s.status && |Do(s, Agent(r), act).req| == |s.req|
  {
  }

  /** Thread `t` is in the middle of an operation, and nothing keeps it there. */
  predicate Busily(s: System, t: nat) {
    t < |s.cells| && !AtRest(s.cells[t].pc) && Released(s.cells[t].sh)
  }

  predicate Moves(l: Label, t: nat) {
    l.LThread? && l.t == t
  }

  lemma NextGoesDown(s: System, s': System, l: Label, t: nat)
    requires SysInv(s) && Next(s, s', l) && Busily(s, t)
    ensures t < |s'.cells| && RankOf(s'.cells[t]) + (if Moves(l, t) then 1 else 0) <= RankOf(s.cells[t])
  {
    hide CellInv, OwnerEdge, AgentNext, CollectorStep, Touches, GcFacts, Released, Rank;
    var c := s.cells[t];
    match l
    case LThread(q, act) =>
      if q == t {
        CellFits(c);
        OwnerGoesDown(c.sh, c.pc, act, s'.cells[t].pc);
      }
    case LAgent(q, r, ev) => if q == t { AgentKeepsRank(c, s'.cells[t], r, ev); }
    case LCollector(res) => CollectorKeepsShared(s, s', res);
    case _ =>
  }

  lemma CellFits(c: Cell)
    requires CellInv(c)
    ensures AckFits(c.sh, c.pc) && StatusFits(c.sh.status, c.pc)
  {
  }

  // ---------------------------------------------------------------- runs

  /** Steps that thread `t` takes from `i` to `j`. */
  function OwnSteps(labels: seq<Label>, i: nat, j: nat, t: nat): (n: nat)
    requires i <= j <= |labels|
    decreases j
  {
    if i == j then 0 else OwnSteps(labels, i, j - 1, t) + if Moves(labels[j - 1], t) then 1 else 0
  }

  /** While nobody asks a thread to block and nothing keeps it blocked, it is through with the operation
      it is in after at most `Rank` steps of its own, whatever all others do: a yieldpoint, `check_block`,
      the ways into and out of native code, `lock_with_handshake`, its registration, `enable_yieldpoints`
      and `terminate`. */
  lemma {:induction false} OperationsReturn(run: seq<System>, labels: seq<Label>, i: nat, j: nat, t: nat)
    requires IsRun(run, labels) && i <= j < |run| && t < |run[i].cells|
    requires forall k :: i <= k < j ==> Busily(run[k], t)
    ensures t < |run[j].cells|
    ensures RankOf(run[j].cells[t]) + OwnSteps(labels, i, j, t) <= RankOf(run[i].cells[t])
    ensures OwnSteps(labels, i, j, t) == RankOf(run[i].cells[t]) ==> AtRest(run[j].cells[t].pc)
    decreases j
  {
    hide Next, SysInv, Busily, AtRest, Rank;
    if i < j {
      OperationsReturn(run, labels, i, j - 1, t);
      RunInv(run, labels, j - 1);
      NextGoesDown(run[j - 1], run[j], labels[j - 1], t);
    }
    var c := run[j].cells[t];
    RankIsPositive(|c.sh.req|, c.sh.status, c.pc);
  }

  // ---------------------------------------------------------------- and there is always a step

  /** What the thread does next. */
  function NextOf(s: Shared, pc: OPc): (Action, OPc) {
    match pc
    case Yp(y) => YieldpointNext(s, y)
    case Cb(r, b) => CheckBlockNext(s, r, b)
    case En(e, n) => EnterNext(s, e, n)
    case Ln(k, LLoad) =>
      (Skip, if s.status == InNative then Ln(k, LCas)
             else if k == AttemptOnly then Native
             else Cb(FromNative(k), CLock))
    case Ln(k, LCas) => if s.status == InNative then (StoreStatus(InManaged), AfterLeave(k)) else (Skip, Ln(k, LLoad))
    case Hl(l, h) =>
      (match h
       case HQueued => (Skip, Hl(l, HLoad))
       case HLoad => (Skip, Hl(l, if s.status == InNative then HCas else HDrop))
       case HCas => if s.status == InNative then (StoreStatus(InManaged), Run) else (Skip, Hl(l, HLoad))
       case HDrop => (Skip, Ln(IntoRelock(l), LLoad)))
    case Rg(native, g) =>
      (Skip, match g
             case GQueued => Rg(native, GPush)
             case GPush => Rg(native, GUnlock)
             case GUnlock => if native then Ln(IntoManaged, LLoad) else Run)
    case Ey(boot, v) =>
      (match v
       case EAdd => (AddCount(1), Ey(boot, ETest))
       case ETest => (Skip, if s.count == 1 then Ey(boot, EPending) else AfterEnable(boot))
       case EPending => (Skip, if s.pending then Ey(boot, ETake) else AfterEnable(boot))
       case ETake => (StoreTake(1), Ey(boot, EClear))
       case EClear => (StorePending(false), AfterEnable(boot)))
    case Bt(b) =>
      (Skip, match b
             case BEnable => Bt(BSweep)
             case BSweep => Bt(BSwept)
             case BSwept => Bt(BPark)
             case BPark =>
               if s.status == InNative || s.status == New then Rg(false, GQueued) else En(IntoRegistry, NLoad))
    case Tm(t) =>
      (match t
       case TLock => (Acquire, Tm(TAbout))
       case TAbout => (StoreAbout, Tm(TNotify))
       case TNotify => (Broadcast, Tm(TUnlock))
       case TUnlock => (Release, Dead))
    case Sb(_) => (Release, Run)
    case _ => (Skip, pc)
  }

  function YieldpointNext(s: Shared, y: YpPc): (Action, OPc) {
    match y
    case YEnter => (Skip, Yp(if s.count == 1 then YLock else YDeferPending))
    case YDeferPending => (StorePending(true), Yp(YDeferClear))
    case YDeferClear => (StoreTake(0), Run)
    case YLock => (Acquire, Yp(YTest))
    case YTest => (Skip, Yp(if s.take != 0 then YClear else YUnlock))
    case YClear => (StoreTake(0), Cb(FromYieldpoint, CLock))
    case YUnlock => (Release, Run)
  }

  function CheckBlockNext(s: Shared, r: Ret, b: CbPc): (Action, OPc) {
    match b
    case CLock => (Acquire, Cb(r, CAck(0, false)))
    case CAck(i, had) =>
      if |s.req| <= i then (Skip, Cb(r, if had then CNotify else CTest))
      else if s.req[i] then (StoreBlk(i, true), Cb(r, CAckClear(i)))
      else (Skip, Cb(r, CAck(i + 1, had)))
    case CAckClear(i) => (StoreReq(i, false), Cb(r, CAck(i + 1, true)))
    case CNotify => (Broadcast, Cb(r, CTest))
    case CTest => (Skip, Cb(r, if AnyBlocked(s) then CWait else CStatus))
    case CWait => (WaitOn, Cb(r, CSleep))
    case CSleep => (WakeUp(BaseDepth(r) + 1), Cb(r, CAck(0, false)))
    case CStatus => (StoreStatus(InManaged), Cb(r, CUnlock))
    case CUnlock => (Release, AfterCheckBlock(r))
  }

  function EnterNext(s: Shared, e: Enter, n: EnPc): (Action, OPc) {
    match n
    case NLoad => (Skip, En(e, if s.status == InManaged then NCas else NLock))
    case NCas => if s.status == InManaged then (StoreStatus(InNative), AfterEnter(e)) else (Skip, En(e, NLoad))
    case NLock => (Acquire, En(e, NStatus))
    case NStatus => (StoreStatus(BlockedInNative), En(e, NAck(0, false)))
    case NAck(i, had) =>
      if |s.req| <= i then (Skip, En(e, if had then NNotify else NUnlock))
      else if s.req[i] then (StoreBlk(i, true), En(e, NAckClear(i)))
      else (Skip, En(e, NAck(i + 1, had)))
    case NAckClear(i) => (StoreReq(i, false), En(e, NAck(i + 1, true)))
    case NNotify => (Broadcast, En(e, NUnlock))
    case NUnlock => (Release, AfterEnter(e))
  }

  lemma NextOfIsNext(s: Shared, pc: OPc)
    requires !AtRest(pc) && (s.holder == None || s.holder == Some(Owner))
    requires pc.Cb? && pc.b == CSleep ==> s.holder == None && Owner !in s.asleep
    ensures var n := NextOf(s, pc); OwnerEdge(s, pc, n.0, n.1) && Enabled(s, Owner, n.0)
  {
  }

  /** What the thread's next step needs of others: a lock or the registry it queues on. */
  predicate WayIsClear(s: System, p: OPc) {
    && (p.Hl? && p.h == HQueued && p.l < |s.locks| ==> s.locks[p.l] == None)
    && (p == Bt(BSweep) || (p.Rg? && p.g == GQueued) ==> s.regHolder == None)
  }

  /** A thread in the middle of an operation that nothing keeps there can take its next step, unless its
      monitor, the registry or a lock it queues on is with somebody else.  It does not sleep on, because
      whoever cleared the last adapter has notified it. */
  lemma OperationsGoOn(run: seq<System>, labels: seq<Label>, i: nat, t: nat) returns (s': System, act: Action)
    requires IsRun(run, labels) && i < |run| && Busily(run[i], t) && WayIsClear(run[i], run[i].cells[t].pc)
    requires run[i].cells[t].sh.holder == None || run[i].cells[t].sh.holder == Some(Owner)
    ensures Next(run[i], s', LThread(t, act))
  {
    hide SysInv, CellInv, IsRun, OwnerEdge, Enabled, NextOf, Released, ThreadStep, WayIsClear;
    var s := run[i];
    var c := s.cells[t];
    RunInv(run, labels, i);
    FitsAt(s, t);
    if c.pc.Cb? && c.pc.b == CSleep { SleeperIsFree(c); AwakeWhenReleased(run, labels, i, t); }
    NextOfIsNext(c.sh, c.pc);
    act := NextOf(c.sh, c.pc).0;
    s' := StepOf(s, t, act, NextOf(c.sh, c.pc).1);
  }

  /** The rest of the system is no obstacle to a step of the thread's code. */
  lemma StepOf(s: System, t: nat, act: Action, p: OPc) returns (s': System)
    requires t < |s.cells| && !AtRest(s.cells[t].pc)
    requires OwnerEdge(s.cells[t].sh, s.cells[t].pc, act, p) && Enabled(s.cells[t].sh, Owner, act)
    requires (s.cells[t].pc.Hl? ==> s.cells[t].pc.l < |s.locks|) && WayIsClear(s, s.cells[t].pc)
    ensures ThreadStep(s, s', t, act)
  {
    hide OwnerEdge, Enabled, Do;
    var c := s.cells[t];
    s' := s.(cells := s.cells[t := c.(sh := Do(c.sh, Owner, act), pc := p)]);
    match c.pc
    case Hl(l, HQueued) => s' := s'.(locks := s.locks[l := Some(t)]);
    case Hl(l, HDrop) => s' := s'.(locks := s.locks[l := None]);
    case Bt(BSweep) => s' := s'.(regHolder := Some(RegThread(t)));
    case Bt(BSwept) => s' := s'.(regHolder := None);
    case Rg(_, GQueued) => s' := s'.(regHolder := Some(RegThread(t)));
    case Rg(_, GPush) => s' := s'.(registry := s.registry + [t]);
    case Rg(_, GUnlock) => s' := s'.(regHolder := None);
    case _ =>
  }

  lemma FitsAt(s: System, t: nat)
    requires SysInv(s) && t < |s.cells|
    ensures CellInv(s.cells[t]) && (s.cells[t].pc.Hl? ==> s.cells[t].pc.l < |s.locks|)
  {
    assert LockFits(s.locks, t, s.cells[t].pc);
  }

  lemma SleeperIsFree(c: Cell)
    requires CellInv(c) && c.pc.Cb? && c.pc.b == CSleep
    ensures c.sh.holder != Some(Owner)
  {
  }

  lemma AwakeWhenReleased(run: seq<System>, labels: seq<Label>, i: nat, t: nat)
    requires IsRun(run, labels) && i < |run| && t < |run[i].cells|
    requires run[i].cells[t].sh.holder == None && Released(run[i].cells[t].sh)
    ensures Owner !in run[i].cells[t].sh.asleep
  {
    NoLostWakeup(run, labels, i, t);
  }
}

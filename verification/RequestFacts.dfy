/** No block request is lost: while it is pending, whoever is responsible will come by it. */
module RequestFacts {
  import opened ThreadProgram
  import opened MonitorDiscipline
  import opened StopFacts

  /** Inside the thread's own critical section, adapter `a` has been acknowledged. */
  predicate Acked(pc: OPc, a: nat) {
    match pc
    case Cb(_, b) =>
      if b.CAck? || b.CAckClear? then a < b.i
      else !b.CLock? && !b.CSleep?
    case En(_, n) =>
      if n.NAck? || n.NAckClear? then a < n.i
      else n.NNotify? || n.NUnlock?
    case Sb(u) => u.SUnlock?
    case _ => false
  }

  /** Inside the thread's own critical section, adapter `a` is about to be acknowledged. */
  predicate WillAck(pc: OPc, a: nat) {
    match pc
    case Cb(r, b) =>
      if b.CAck? || b.CAckClear? then b.i <= a
      else b.CLock? && !r.FromNative?
    case En(_, n) => (n.NAck? || n.NAckClear?) && n.i <= a
    case _ => false
  }

  /** A request that is pending and nobody is dealing with: the thread is marked to block, and its
      next yieldpoint will be taken, now or when yieldpoints are enabled again. */
  predicate Marked(s: Shared) {
    && (s.status == InManagedToBlock || s.status == New)
    && (s.take != 0 || s.pending)
  }

  /** `busy` says that an agent is in the middle of placing or clearing the request. */
  predicate ReqOk(s: Shared, pc: OPc, a: nat, busy: bool) {
    Get(s.req, a) ==> !Acked(pc, a) && (busy || s.about || WillAck(pc, a) || Marked(s))
  }

  predicate TakeFits(s: Shared, pc: OPc) {
    && (pc == Yp(YDeferClear) ==> s.pending)
    && (pc.Ey? && pc.v == EClear ==> s.take != 0)
  }

  lemma OwnerTake(s: Shared, pc: OPc, act: Action, p: OPc)
    requires OwnerEdge(s, pc, act, p) && TakeFits(s, pc)
    ensures TakeKept(s, pc, Do(s, Owner, act), p)
  {
    hide CheckBlockEdge, EnterEdge;
    match pc
    case Run =>
    case Yp(y) =>
    case Cb(r, b) => CheckBlockTake(s, r, b, act, p);
    case En(e, n) => EnterTake(s, e, n, act, p);
    case _ =>
  }

  /** Outside its critical sections, the thread does not make the next yieldpoint go away. */
  predicate TakeKept(s: Shared, pc: OPc, t: Shared, p: OPc) {
    && TakeFits(t, p)
    && ((s.take != 0 || s.pending) && ODepth(pc) == 0 ==> t.take != 0 || t.pending)
  }

  lemma CheckBlockTake(s: Shared, r: Ret, b: CbPc, act: Action, p: OPc)
    requires CheckBlockEdge(s, r, b, act, p)
    ensures TakeKept(s, Cb(r, b), Do(s, Owner, act), p)
  {
  }

  lemma EnterTake(s: Shared, e: Enter, n: EnPc, act: Action, p: OPc)
    requires EnterEdge(s, e, n, act, p)
    ensures TakeKept(s, En(e, n), Do(s, Owner, act), p)
  {
  }

  lemma OwnerReq(s: Shared, pc: OPc, act: Action, p: OPc, a: nat, busy: bool)
    requires OwnerEdge(s, pc, act, p) && ReqOk(s, pc, a, busy) && TakeFits(s, pc) && StatusFits(s.status, pc)
    requires busy ==> ODepth(pc) == 0
    ensures ReqOk(Do(s, Owner, act), p, a, busy)
  {
    hide CheckBlockEdge, EnterEdge, YieldpointEdge, LeaveEdge, HandshakeLockEdge;
    match pc
    case Run =>
    case Yp(y) => YieldpointReq(s, y, act, p, a, busy);
    case Cb(r, b) => CheckBlockReq(s, r, b, act, p, a, busy);
    case En(e, n) => EnterReq(s, e, n, act, p, a, busy);
    case Ln(k, x) => LeaveReq(s, k, x, act, p, a, busy);
    case Hl(l, h) => HandshakeLockReq(s, l, h, act, p, a, busy);
    case Sb(u) =>
    case Ey(b, v) =>
    case _ =>
  }

  lemma LeaveReq(s: Shared, k: Leave, x: LnPc, act: Action, p: OPc, a: nat, busy: bool)
    requires LeaveEdge(s, k, x, act, p) && ReqOk(s, Ln(k, x), a, busy)
    ensures ReqOk(Do(s, Owner, act), p, a, busy)
  {
  }

  lemma HandshakeLockReq(s: Shared, l: nat, h: HlPc, act: Action, p: OPc, a: nat, busy: bool)
    requires HandshakeLockEdge(s, l, h, act, p) && ReqOk(s, Hl(l, h), a, busy)
    ensures ReqOk(Do(s, Owner, act), p, a, busy)
  {
  }

  lemma YieldpointReq(s: Shared, y: YpPc, act: Action, p: OPc, a: nat, busy: bool)
    requires YieldpointEdge(s, y, act, p) && ReqOk(s, Yp(y), a, busy) && TakeFits(s, Yp(y))
    ensures ReqOk(Do(s, Owner, act), p, a, busy)
  {
  }

  lemma CheckBlockReq(s: Shared, r: Ret, b: CbPc, act: Action, p: OPc, a: nat, busy: bool)
    requires CheckBlockEdge(s, r, b, act, p) && ReqOk(s, Cb(r, b), a, busy) && StatusFits(s.status, Cb(r, b))
    ensures ReqOk(Do(s, Owner, act), p, a, busy)
  {
  }

  lemma EnterReq(s: Shared, e: Enter, n: EnPc, act: Action, p: OPc, a: nat, busy: bool)
    requires EnterEdge(s, e, n, act, p) && ReqOk(s, En(e, n), a, busy) && StatusFits(s.status, En(e, n))
    ensures ReqOk(Do(s, Owner, act), p, a, busy)
  {
  }

  // ---------------------------------------------------------------- agents

  /** The agent is placing or clearing its own request. */
  predicate Busy(j: Job, at: AtPc, a: nat) {
    && j.ad == a
    && (at.About? || at.Take? || at.Load? || at.Cas? || at.Clear? || at == Notify(BlockedInNative))
  }

  /** What an agent knows inside its critical section. */
  predicate Saw(s: Shared, at: AtPc) {
    match at
    case Load => s.take != 0 || s.pending
    case Cas(_) => s.take != 0 || s.pending
    case Notify(st) =>
      && st == s.status && (st == InManagedToBlock || st == BlockedInNative || st == New)
      && (s.take != 0 || s.pending)
    case Clear => s.status == BlockedInNative && s.asleep == {}
    case Set => s.status == BlockedInNative && s.asleep == {}
    case Check => s.status != New
    case Sleep => s.status != New
    case Result => s.status != New
    case _ => true
  }

  lemma AgentSaw(s: Shared, pc: OPc, w: Who, j: Job, at: AtPc, act: Action, p: AtPc)
    requires AgentEdge(s, j, at, act, p) && Saw(s, at) && StatusFits(s.status, pc) && ODepth(pc) == 0
    ensures Saw(Do(s, w, act), p) && StatusFits(Do(s, w, act).status, pc)
    ensures s.status != New ==> Do(s, w, act).status != New
  {
    RemoteStatus(s.status, pc);
  }

  lemma AgentReq(s: Shared, pc: OPc, w: Who, j: Job, at: AtPc, act: Action, p: AtPc, a: nat)
    requires AgentEdge(s, j, at, act, p) && Saw(s, at) && StatusFits(s.status, pc) && ODepth(pc) == 0
    requires ReqOk(s, pc, a, Busy(j, at, a))
    ensures ReqOk(Do(s, w, act), pc, a, Busy(j, p, a))
  {
    RemoteStatus(s.status, pc);
  }
}

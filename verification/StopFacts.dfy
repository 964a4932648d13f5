/** Status, blocked flags and program counters agree along every edge of the code. */
module StopFacts {
  import opened MonitorDiscipline
  import opened Options
  import opened ThreadProgram

  /** In native state, from the moment the thread is there until it has left. */
  predicate NativeSide(p: OPc) {
    match p
    case Native => true
    case Ln(_, _) => true
    case Hl(_, _) => true
    case Rg(n, _) => n
    case En(_, n) => n.NAck? || n.NAckClear? || n.NNotify? || n.NUnlock?
    case _ => false
  }

  predicate Terminating(p: OPc) {
    p == Dead || (p.Tm? && (p.t.TNotify? || p.t.TUnlock?))
  }

  /** The thread needs no help to be stopped: it is in native state, or inside `check_block` before
      it has found every adapter clear. */
  predicate Parked(p: OPc) {
    || NativeSide(p)
    || (p.Cb? && !p.b.CStatus? && !p.b.CUnlock? && (p.b.CLock? ==> p.ret.FromNative?))
  }

  /** The thread executes managed code, or runtime code on its behalf. */
  predicate Executing(p: OPc) {
    !Parked(p) && !Terminating(p) && p != Unborn
  }

  // ---------------------------------------------------------------- status

  predicate StatusFits(st: Status, pc: OPc) {
    if pc.Cb? && pc.b.CUnlock? then st == InManaged
    else if pc.Cb? && pc.ret.FromNative? then st == BlockedInNative
    else if pc.En? && NativeSide(pc) then st == BlockedInNative
    else if NativeSide(pc) then st == InNative || st == BlockedInNative
    else if pc.Rg? then st == New
    else st == New || st == InManaged || st == InManagedToBlock
  }

  lemma OwnerStatus(s: Shared, pc: OPc, act: Action, p: OPc)
    requires OwnerEdge(s, pc, act, p) && StatusFits(s.status, pc)
    ensures StatusFits(Do(s, Owner, act).status, p)
  {
    hide CheckBlockEdge, EnterEdge, LeaveEdge;
    match pc
    case Cb(r, b) => CheckBlockStatus(s, r, b, act, p);
    case En(e, n) => EnterStatus(s, e, n, act, p);
    case Ln(k, x) => LeaveStatus(s, k, x, act, p);
    case Run =>
    case Yp(y) =>
    case _ =>
  }

  lemma LeaveStatus(s: Shared, k: Leave, x: LnPc, act: Action, p: OPc)
    requires LeaveEdge(s, k, x, act, p) && StatusFits(s.status, Ln(k, x))
    ensures StatusFits(Do(s, Owner, act).status, p)
  {
  }

  lemma CheckBlockStatus(s: Shared, r: Ret, b: CbPc, act: Action, p: OPc)
    requires CheckBlockEdge(s, r, b, act, p) && StatusFits(s.status, Cb(r, b))
    ensures StatusFits(Do(s, Owner, act).status, p)
  {
  }

  lemma EnterStatus(s: Shared, e: Enter, n: EnPc, act: Action, p: OPc)
    requires EnterEdge(s, e, n, act, p) && StatusFits(s.status, En(e, n))
    ensures StatusFits(Do(s, Owner, act).status, p)
  {
  }

  /** A stop request can hit a thread anywhere outside its own critical sections. */
  lemma RemoteStatus(st: Status, pc: OPc)
    requires StatusFits(st, pc) && ODepth(pc) == 0
    ensures StatusFits(BlockTarget(st), pc)
    ensures st == BlockedInNative ==> Parked(pc)
    ensures BlockTarget(st) == InManagedToBlock || BlockTarget(st) == BlockedInNative || BlockTarget(st) == New
  {
  }

  // ---------------------------------------------------------------- blocked flags

  predicate BlockedFits(s: Shared, pc: OPc) {
    AnyBlocked(s) ==> Parked(pc) && (NativeSide(pc) ==> s.status == BlockedInNative)
  }

  lemma OwnerBlocked(s: Shared, pc: OPc, act: Action, p: OPc)
    requires OwnerEdge(s, pc, act, p) && StatusFits(s.status, pc) && BlockedFits(s, pc)
    ensures BlockedFits(Do(s, Owner, act), p)
  {
    hide CheckBlockEdge, EnterEdge, YieldpointEdge;
    match pc
    case Cb(r, b) => CheckBlockBlocked(s, r, b, act, p);
    case En(e, n) => EnterBlocked(s, e, n, act, p);
    case Run =>
    case Yp(y) => YieldpointBlocked(s, y, act, p);
    case _ =>
  }

  lemma YieldpointBlocked(s: Shared, y: YpPc, act: Action, p: OPc)
    requires YieldpointEdge(s, y, act, p) && BlockedFits(s, Yp(y))
    ensures BlockedFits(Do(s, Owner, act), p)
  {
  }

  lemma CheckBlockBlocked(s: Shared, r: Ret, b: CbPc, act: Action, p: OPc)
    requires CheckBlockEdge(s, r, b, act, p) && StatusFits(s.status, Cb(r, b)) && BlockedFits(s, Cb(r, b))
    ensures BlockedFits(Do(s, Owner, act), p)
  {
  }

  lemma EnterBlocked(s: Shared, e: Enter, n: EnPc, act: Action, p: OPc)
    requires EnterEdge(s, e, n, act, p) && StatusFits(s.status, En(e, n)) && BlockedFits(s, En(e, n))
    ensures BlockedFits(Do(s, Owner, act), p)
  {
  }

  // ---------------------------------------------------------------- termination

  predicate AboutFits(s: Shared, pc: OPc) {
    s.about <==> Terminating(pc)
  }

  lemma OwnerAbout(s: Shared, pc: OPc, act: Action, p: OPc)
    requires OwnerEdge(s, pc, act, p) && AboutFits(s, pc)
    ensures AboutFits(Do(s, Owner, act), p)
  {
    hide CheckBlockEdge, EnterEdge;
    match pc
    case Run =>
    case Yp(y) =>
    case Cb(r, b) => assert act != StoreAbout && !Terminating(p) by { CheckBlockGoesOn(s, r, b, act, p); }
    case En(e, n) => assert act != StoreAbout && !Terminating(p) by { EnterGoesOn(s, e, n, act, p); }
    case _ =>
  }

  lemma CheckBlockGoesOn(s: Shared, r: Ret, b: CbPc, act: Action, p: OPc)
    requires CheckBlockEdge(s, r, b, act, p)
    ensures act != StoreAbout && !Terminating(p) && p != Unborn
  {
  }

  lemma EnterGoesOn(s: Shared, e: Enter, n: EnPc, act: Action, p: OPc)
    requires EnterEdge(s, e, n, act, p)
    ensures act != StoreAbout && !Terminating(p) && p != Unborn
  {
  }

  // ---------------------------------------------------------------- what the monitor protects

  /** Without its monitor a thread leaves requests, blocked flags and its own termination alone, and
      moves its status between `InManaged` and `InNative` only. */
  lemma OwnerUnlocked(s: Shared, pc: OPc, act: Action, p: OPc)
    requires OwnerEdge(s, pc, act, p) && ODepth(pc) == 0 && Enabled(s, Owner, act) && s.holder.Some?
    requires s.holder != Some(Owner)
    ensures Harmless(s, Do(s, Owner, act))
  {
    hide CheckBlockEdge, EnterEdge;
    match pc
    case Run =>
    case Yp(y) =>
    case Cb(r, b) => CheckBlockStandstill(s, r, b, act, p);
    case En(e, n) => EnterUnlocked(s, e, n, act, p);
    case _ =>
  }

  predicate Harmless(s: Shared, t: Shared) {
    && t.req == s.req && t.blk == s.blk && t.about == s.about && t.holder == s.holder && t.depth == s.depth
    && (t.status == s.status || (s.status == InManaged && t.status == InNative)
        || (s.status == InNative && t.status == InManaged))
    && (t.asleep == s.asleep || t.asleep == {})
  }

  /** Somebody else holds the monitor, so `check_block` is at a standstill. */
  lemma CheckBlockStandstill(s: Shared, r: Ret, b: CbPc, act: Action, p: OPc)
    requires CheckBlockEdge(s, r, b, act, p) && ODepth(Cb(r, b)) == 0 && s.holder.Some? && s.holder != Some(Owner)
    ensures !Enabled(s, Owner, act)
  {
  }

  lemma EnterUnlocked(s: Shared, e: Enter, n: EnPc, act: Action, p: OPc)
    requires EnterEdge(s, e, n, act, p) && ODepth(En(e, n)) == 0
    requires Enabled(s, Owner, act) && s.holder.Some? && s.holder != Some(Owner)
    ensures Harmless(s, Do(s, Owner, act))
  {
  }
}

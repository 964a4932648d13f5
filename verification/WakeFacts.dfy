/** No wakeup is lost, and a synchronous stop request ends with the thread stopped. */
module WakeFacts {
  import opened ThreadProgram
  import opened MonitorDiscipline
  import opened StopFacts
  import opened RequestFacts

  /** The agent will notify everybody before it gives the monitor up. */
  predicate Calls(s: Shared, at: AtPc) {
    || (at.About? && !s.about)
    || at.Take? || at.Load? || at.Cas? || at.Notify? || at.USet? || at.UNotify?
  }

  predicate RequestFrom(s: Shared, i: nat) {
    exists a :: i <= a < |s.req| && s.req[a]
  }

  /** The thread will notify everybody before it gives its monitor up. */
  predicate OwnerCalls(s: Shared, pc: OPc) {
    match pc
    case Cb(_, b) => (b.CAck? && (b.had || RequestFrom(s, b.i))) || b.CAckClear? || b.CNotify?
    case En(_, n) => (n.NAck? && (n.had || RequestFrom(s, n.i))) || n.NAckClear? || n.NNotify?
    case Tm(t) => t.TNotify?
    case _ => false
  }

  /** What the thread has seen on its way through `check_block` and `enter_native_blocked`. */
  predicate AckFits(s: Shared, pc: OPc) {
    && (pc.Cb? && pc.b.CWait? ==> AnyBlocked(s))
    && (pc.Cb? && pc.b.CAckClear? ==> Get(s.blk, pc.b.i))
    && (pc.En? && pc.n.NAckClear? ==> Get(s.blk, pc.n.i))
  }

  lemma OwnerAck(s: Shared, pc: OPc, act: Action, p: OPc)
    requires OwnerEdge(s, pc, act, p) && AckFits(s, pc) && |s.req| == |s.blk|
    ensures AckFits(Do(s, Owner, act), p)
  {
    hide CheckBlockEdge;
    match pc
    case Run =>
    case Yp(y) =>
    case Cb(r, b) => CheckBlockAck(s, r, b, act, p);
    case En(e, n) =>
    case _ =>
  }

  lemma CheckBlockAck(s: Shared, r: Ret, b: CbPc, act: Action, p: OPc)
    requires CheckBlockEdge(s, r, b, act, p) && AckFits(s, Cb(r, b)) && |s.req| == |s.blk|
    ensures AckFits(Do(s, Owner, act), p)
  {
  }

  // ---------------------------------------------------------------- the thread asleep

  predicate NoRequest(s: Shared) {
    forall a :: 0 <= a < |s.req| ==> !s.req[a]
  }

  /** A thread that sleeps without having been notified is blocked and has seen every request,
      unless the holder of the monitor is about to notify it. */
  predicate OwnerSleepOk(s: Shared, pc: OPc, calls: bool) {
    Owner in s.asleep ==> pc.Cb? && pc.b.CSleep? && (calls || (AnyBlocked(s) && NoRequest(s)))
  }

  lemma OwnerSleep(s: Shared, pc: OPc, act: Action, p: OPc, calls: bool)
    requires OwnerEdge(s, pc, act, p) && Enabled(s, Owner, act) && OwnerSleepOk(s, pc, calls) && AckFits(s, pc)
    requires forall a :: 0 <= a < |s.req| && s.req[a] ==> !Acked(pc, a)
    ensures OwnerSleepOk(Do(s, Owner, act), p, calls)
  {
    hide CheckBlockEdge;
    match pc
    case Run =>
    case Yp(y) =>
    case Cb(r, b) => CheckBlockSleep(s, r, b, act, p, calls);
    case En(e, n) =>
    case _ =>
  }

  lemma CheckBlockSleep(s: Shared, r: Ret, b: CbPc, act: Action, p: OPc, calls: bool)
    requires CheckBlockEdge(s, r, b, act, p) && Enabled(s, Owner, act) && OwnerSleepOk(s, Cb(r, b), calls)
    requires AckFits(s, Cb(r, b))
    requires forall a :: 0 <= a < |s.req| && s.req[a] ==> !Acked(Cb(r, b), a)
    ensures OwnerSleepOk(Do(s, Owner, act), p, calls)
  {
  }

  lemma AgentOwnerSleep(s: Shared, pc: OPc, r: nat, j: Job, at: AtPc, act: Action, p: AtPc)
    requires AgentEdge(s, j, at, act, p) && Saw(s, at) && AboutFits(s, pc) && OwnerSleepOk(s, pc, Calls(s, at))
    ensures OwnerSleepOk(Do(s, Agent(r), act), pc, Calls(Do(s, Agent(r), act), p))
  {
  }

  // ---------------------------------------------------------------- requesters asleep

  /** A requester that sleeps without having been notified still has to wait, unless the holder of
      the monitor is about to notify it. */
  predicate SleeperOk(s: Shared, pc: OPc, a: nat, calls: bool) {
    calls || OwnerCalls(s, pc) || (MustWait(s, a) && s.status == InManagedToBlock)
  }

  lemma OwnerSleeper(s: Shared, pc: OPc, act: Action, p: OPc, a: nat, calls: bool)
    requires OwnerEdge(s, pc, act, p) && SleeperOk(s, pc, a, calls) && act != Broadcast
    requires Get(s.req, a) ==> !Acked(pc, a)
    ensures SleeperOk(Do(s, Owner, act), p, a, calls)
  {
    hide CheckBlockEdge, EnterEdge, YieldpointEdge;
    match pc
    case Run =>
    case Yp(y) => YieldpointSleeper(s, y, act, p, a, calls);
    case Cb(r, b) => CheckBlockSleeper(s, r, b, act, p, a, calls);
    case En(e, n) => EnterSleeper(s, e, n, act, p, a, calls);
    case Ln(k, x) =>
    case Hl(l, h) =>
    case _ =>
  }

  lemma YieldpointSleeper(s: Shared, y: YpPc, act: Action, p: OPc, a: nat, calls: bool)
    requires YieldpointEdge(s, y, act, p) && SleeperOk(s, Yp(y), a, calls)
    ensures SleeperOk(Do(s, Owner, act), p, a, calls)
  {
  }

  lemma CheckBlockSleeper(s: Shared, r: Ret, b: CbPc, act: Action, p: OPc, a: nat, calls: bool)
    requires CheckBlockEdge(s, r, b, act, p) && SleeperOk(s, Cb(r, b), a, calls) && act != Broadcast
    requires Get(s.req, a) ==> !Acked(Cb(r, b), a)
    ensures SleeperOk(Do(s, Owner, act), p, a, calls)
  {
  }

  lemma EnterSleeper(s: Shared, e: Enter, n: EnPc, act: Action, p: OPc, a: nat, calls: bool)
    requires EnterEdge(s, e, n, act, p) && SleeperOk(s, En(e, n), a, calls) && act != Broadcast
    requires Get(s.req, a) ==> !Acked(En(e, n), a)
    ensures SleeperOk(Do(s, Owner, act), p, a, calls)
  {
  }

  lemma OwnerCallsInside(s: Shared, pc: OPc)
    ensures OwnerCalls(s, pc) ==> ODepth(pc) > 0
  {
  }

  lemma AgentSleeper(s: Shared, pc: OPc, r: nat, j: Job, at: AtPc, act: Action, p: AtPc, a: nat)
    requires AgentEdge(s, j, at, act, p) && Saw(s, at) && ODepth(pc) == 0 && s.asleep != {}
    requires SleeperOk(s, pc, a, Calls(s, at)) && act != Broadcast
    ensures SleeperOk(Do(s, Agent(r), act), pc, a, Calls(Do(s, Agent(r), act), p))
  {
    OwnerCallsInside(s, pc);
  }

  lemma AgentFallsAsleep(s: Shared, pc: OPc, j: Job)
    requires MustWait(s, j.ad) && s.status != New && ODepth(pc) == 0 && ReqOk(s, pc, j.ad, false)
    ensures SleeperOk(s, pc, j.ad, false)
  {
  }

  // ---------------------------------------------------------------- synchronous stop requests

  /** The thread is blocked for the adapter, or on its way out. */
  predicate StoppedFor(s: Shared, a: nat) {
    Get(s.blk, a) || s.about
  }

  predicate StoppedForGc(s: Shared) {
    StoppedFor(s, GC)
  }

  /** Until a requester has its answer, its request is pending, or being answered, or answered. */
  predicate SyncOk(s: Shared, a: nat, at: AtPc, setting: bool) {
    at.About? || at.Take? || at.Load? || at.Cas? || at.Notify? || at.Check? || at.Sleep? ==>
      Get(s.req, a) || StoppedFor(s, a) || setting
  }

  /** What a requester may conclude from the outcome of its request. */
  predicate ResultOk(started: bool, s: Shared, j: Job, at: AtPc) {
    match at
    case Result => StoppedFor(s, j.ad)
    case InnerUnlock(res) => Concluded(started, s, j, res)
    case OuterUnlock(res) => Concluded(started, s, j, res)
    case Done(res) => Concluded(started, s, j, res)
    case _ => true
  }

  predicate Concluded(started: bool, s: Shared, j: Job, res: Res) {
    && (j.kind == BlockSync ==> StoppedFor(s, j.ad) || res == State(New))
    && (res == Skipped || res == State(Terminated) ==> StoppedFor(s, j.ad))
    && (res == State(New) ==> !started)
  }

  // ---------------------------------------------------------------- what a requester has found and done

  /** While an agent holds the monitor, what its request has found or done stays true. */
  predicate AskFits(s: Shared, j: Job, at: AtPc) {
    && (j.kind != Unblock ==> BlockFits(s, j.ad, at))
    && (j.kind == BlockAsync ==> AnswerFits(s, j, at))
    && (j.kind == BlockAsync && j.test ==> StopFits(s, j.ad, at))
    && (j.kind == Unblock ==> ResumeFits(s, j, at))
  }

  /** The request is placed on a thread that is not terminating. */
  predicate BlockFits(s: Shared, a: nat, at: AtPc) {
    match at
    case About => Get(s.req, a)
    case Take => Get(s.req, a) && !s.about
    case Load => Get(s.req, a) && !s.about
    case Cas(_) => Get(s.req, a) && !s.about
    case Notify(_) => Get(s.req, a) && !s.about
    case Clear => !s.about
    case Set => !s.about && !Get(s.req, a)
    case _ => true
  }

  predicate AnswerFits(s: Shared, j: Job, at: AtPc) {
    match at
    case InnerUnlock(res) => Answered(s, j, res)
    case OuterUnlock(res) => Answered(s, j, res)
    case _ => true
  }

  /** What an asynchronous request has come to, whatever its answer. */
  predicate Answered(s: Shared, j: Job, res: Res) {
    match res
    case Skipped => j.test && Get(s.blk, j.ad)
    case Unit => false
    case State(st) =>
      match st
      case Terminated => s.about
      case BlockedInNative => !s.about && s.status == BlockedInNative && Get(s.blk, j.ad) && !Get(s.req, j.ad)
      case InManagedToBlock =>
        !s.about && s.status == InManagedToBlock && Get(s.req, j.ad) && (s.take != 0 || s.pending)
      case New => !s.about && s.status == New && Get(s.req, j.ad) && (s.take != 0 || s.pending)
      case _ => false
  }

  /** A request with the short circuit has tested that the thread is not blocked. */
  predicate StopFits(s: Shared, a: nat, at: AtPc) {
    match at
    case Inner => !Get(s.blk, a)
    case Req => !Get(s.blk, a)
    case About => !Get(s.blk, a)
    case Take => !Get(s.blk, a)
    case Load => !Get(s.blk, a)
    case Cas(_) => !Get(s.blk, a)
    case Notify(_) => !Get(s.blk, a)
    case InnerUnlock(res) => res == State(New) ==> !Get(s.blk, a)
    case OuterUnlock(res) => res == State(New) ==> !Get(s.blk, a)
    case _ => true
  }

  /** A resume has cleared request and flag, and notified everybody. */
  predicate ResumeFits(s: Shared, j: Job, at: AtPc) {
    match at
    case USet => !Get(s.req, j.ad)
    case UNotify => !Get(s.req, j.ad) && !Get(s.blk, j.ad)
    case InnerUnlock(res) => res == Unit && IsResumed(s, j.ad)
    case OuterUnlock(res) => if res == Unit then IsResumed(s, j.ad) else j.test && res == Skipped && Get(s.blk, j.ad)
    case _ => true
  }

  /** Nothing keeps the thread from going on for the adapter, and nobody sleeps without having been
      notified. */
  predicate IsResumed(s: Shared, a: nat) {
    !Get(s.req, a) && !Get(s.blk, a) && s.asleep == {}
  }

  lemma AskFitsOutside(s: Shared, j: Job, at: AtPc)
    requires ADepth(j, at) == 0 && (j.test ==> j.nested)
    ensures AskFits(s, j, at)
  {
  }

  lemma AskFitsSame(s: Shared, t: Shared, j: Job, at: AtPc)
    requires AskFits(s, j, at) && t.blk == s.blk && t.about == s.about && t.req == s.req
    requires s.status == InManaged || s.status == InNative || t.status == s.status
    requires s.take != 0 || s.pending ==> t.take != 0 || t.pending
    requires t.asleep == s.asleep || t.asleep == {}
    ensures AskFits(t, j, at)
  {
  }

  lemma AskFitsStep(n: nat, s: Shared, r: nat, j: Job, at: AtPc, act: Action, p: AtPc)
    requires AgentEdge(s, j, at, act, p) && AtFits(j, at) && Saw(s, at) && AskFits(s, j, at)
    requires JobOk(n, r, j) && n == |s.req| == |s.blk|
    ensures AskFits(Do(s, Agent(r), act), j, p)
  {
  }

  lemma OwnerStopped(s: Shared, pc: OPc, act: Action, p: OPc, a: nat)
    requires OwnerEdge(s, pc, act, p) && AckFits(s, pc)
    ensures StaysStopped(s, Do(s, Owner, act), a)
  {
    hide CheckBlockEdge, EnterEdge;
    match pc
    case Run =>
    case Yp(y) =>
    case Cb(r, b) => CheckBlockStopped(s, r, b, act, p, a);
    case En(e, n) => EnterStopped(s, e, n, act, p, a);
    case _ =>
  }

  predicate StaysStopped(s: Shared, t: Shared, a: nat) {
    && (Get(s.blk, a) ==> Get(t.blk, a))
    && (s.about ==> t.about)
    && (Get(s.req, a) ==> Get(t.req, a) || Get(t.blk, a))
  }

  lemma CheckBlockStopped(s: Shared, r: Ret, b: CbPc, act: Action, p: OPc, a: nat)
    requires CheckBlockEdge(s, r, b, act, p) && AckFits(s, Cb(r, b))
    ensures StaysStopped(s, Do(s, Owner, act), a)
  {
  }

  lemma EnterStopped(s: Shared, e: Enter, n: EnPc, act: Action, p: OPc, a: nat)
    requires EnterEdge(s, e, n, act, p) && AckFits(s, En(e, n))
    ensures StaysStopped(s, Do(s, Owner, act), a)
  {
  }

  /** Agents that do not unblock for the adapter never take a block for it away. */
  lemma OtherStopped(s: Shared, r: nat, j: Job, at: AtPc, act: Action, p: AtPc, a: nat)
    requires AgentEdge(s, j, at, act, p) && AtFits(j, at) && !(j.kind == Unblock && j.ad == a)
    ensures var t := Do(s, Agent(r), act);
            && t.about == s.about
            && (Get(s.blk, a) ==> Get(t.blk, a))
            && (Get(s.req, a) ==> Get(t.req, a) || (p.Set? && j.ad == a))
            && (at.Set? && j.ad == a && a < |s.blk| ==> Get(t.blk, a))
  {
  }

  lemma RequesterResult(started: bool, s: Shared, pc: OPc, r: nat, j: Job, at: AtPc, act: Action, p: AtPc)
    requires AgentEdge(s, j, at, act, p) && AtFits(j, at) && Saw(s, at) && StatusFits(s.status, pc)
    requires j.kind != Unblock && j.ad < |s.req| == |s.blk|
    requires SyncOk(s, j.ad, at, false) && ResultOk(started, s, j, at) && (started ==> s.status != New)
    ensures var t := Do(s, Agent(r), act); SyncOk(t, j.ad, p, false) && ResultOk(started, t, j, p)
  {
  }
}

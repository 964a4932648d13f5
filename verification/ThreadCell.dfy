/** A cell: one thread, what others can see of it, and every agent acting on it.  The steps of the
    thread and of the agents interleave freely; `CellInv` is kept by each of them. */
module ThreadCell {
  import opened MonitorDiscipline
  import opened Options
  import opened RequestFacts
  import opened StopFacts
  import opened ThreadProgram
  import opened WakeFacts

  datatype APc = Idle | Act(j: Job, at: AtPc)

  datatype Cell = Cell(
    started: bool,      // created by `start` or `main`, as opposed to `register_mutator_manual`
    collector: bool,    // has a collector context
    ignoring: bool,     // ignores handshakes and GC
    sh: Shared,
    pc: OPc,
    ags: seq<APc>)

  predicate OwnerNext(c: Cell, c': Cell, act: Action) {
    && OwnerEdge(c.sh, c.pc, act, c'.pc)
    && Enabled(c.sh, Owner, act)
    && c' == c.(sh := Do(c.sh, Owner, act), pc := c'.pc)
  }

  datatype AEv = Begin(job: Job) | Step(act: Action, p: AtPc) | End(job: Job, res: Res)

  predicate AgentNext(c: Cell, c': Cell, r: nat, ev: AEv) {
    && r < |c.ags|
    && match ev
       case Begin(job) =>
         && c.ags[r] == Idle && c.pc != Unborn && JobOk(|c.sh.req|, r, job)
         && c' == c.(ags := c.ags[r := Act(job, FirstPc(job))])
       case Step(act, p) =>
         && c.ags[r].Act?
         && AgentEdge(c.sh, c.ags[r].j, c.ags[r].at, act, p)
         && Enabled(c.sh, Agent(r), act)
         && c' == c.(sh := Do(c.sh, Agent(r), act), ags := c.ags[r := Act(c.ags[r].j, p)])
       case End(job, res) =>
         && c.ags[r] == Act(job, Done(res))
         && c' == c.(ags := c.ags[r := Idle])
  }

  // ---------------------------------------------------------------- the invariant

  /** The agent inside its critical section, if the monitor is with an agent. */
  function HolderAct(c: Cell): APc {
    if c.sh.holder.Some? && c.sh.holder.value.Agent? && c.sh.holder.value.id < |c.ags|
    then c.ags[c.sh.holder.value.id]
    else Idle
  }

  predicate HolderBusy(c: Cell, a: nat) {
    HolderAct(c).Act? && Busy(HolderAct(c).j, HolderAct(c).at, a)
  }

  predicate HolderCalls(c: Cell) {
    HolderAct(c).Act? && Calls(c.sh, HolderAct(c).at)
  }

  /** An agent has taken the request away and is about to raise the blocked flag. */
  predicate HolderSets(c: Cell, a: nat) {
    HolderAct(c).Act? && HolderAct(c).at.Set? && HolderAct(c).j.ad == a
  }

  predicate OwnerInv(c: Cell) {
    && GC < |c.sh.req| == |c.sh.blk|
    && COLLECTOR < |c.ags|
    && (c.sh.holder == None <==> c.sh.depth == 0)
    && (c.sh.holder.Some? && c.sh.holder.value.Agent? ==> c.sh.holder.value.id < |c.ags|)
    && HeldBy(c.sh, Owner, ODepth(c.pc))
    && StatusFits(c.sh.status, c.pc)
    && BlockedFits(c.sh, c.pc)
    && AboutFits(c.sh, c.pc)
    && TakeFits(c.sh, c.pc)
    && AckFits(c.sh, c.pc)
    && (c.started && c.pc != Unborn ==> c.sh.status != New)
    && (c.pc == Unborn ==> NoRequest(c.sh))
  }

  predicate AgentInv(c: Cell, r: nat)
    requires r < |c.ags|
  {
    match c.ags[r]
    case Idle => c.sh.holder != Some(Agent(r)) && Agent(r) !in c.sh.asleep
    case Act(j, at) =>
      && c.pc != Unborn
      && JobOk(|c.sh.req|, r, j)
      && AtFits(j, at)
      && HeldBy(c.sh, Agent(r), ADepth(j, at))
      && Saw(c.sh, at)
      && AskFits(c.sh, j, at)
      && (Agent(r) in c.sh.asleep ==> at == Sleep && SleeperOk(c.sh, c.pc, j.ad, HolderCalls(c)))
  }

  predicate ReqInv(c: Cell) {
    forall a :: 0 <= a < |c.sh.req| ==> ReqOk(c.sh, c.pc, a, HolderBusy(c, a))
  }

  predicate SleepInv(c: Cell) {
    OwnerSleepOk(c.sh, c.pc, HolderCalls(c))
  }

  /** The request of agent `r` is not lost on the way to its answer. */
  predicate Pledge(c: Cell, r: nat)
    requires r < |c.ags|
  {
    var p := c.ags[r];
    p.Act? && p.j.kind != Unblock ==>
      && SyncOk(c.sh, p.j.ad, p.at, HolderSets(c, p.j.ad) && c.sh.holder != Some(Agent(r)))
      && ResultOk(c.started, c.sh, p.j, p.at)
  }

  predicate GcInv(c: Cell)
    requires COLLECTOR < |c.ags|
  {
    c.ags[COLLECTOR].Act? && c.ags[COLLECTOR].j.ad == GC ==> Pledge(c, COLLECTOR)
  }

  predicate CellInv(c: Cell) {
    && OwnerInv(c)
    && (forall r :: 0 <= r < |c.ags| ==> AgentInv(c, r))
    && ReqInv(c)
    && SleepInv(c)
    && GcInv(c)
  }

  // ---------------------------------------------------------------- steps of the thread

  lemma OwnerKeepsOwner(c: Cell, c': Cell, act: Action)
    requires OwnerNext(c, c', act) && OwnerInv(c)
    ensures OwnerInv(c') && HolderAct(c') == HolderAct(c)
    ensures c'.sh.holder.Some? && c'.sh.holder.value.Agent? ==> c'.sh.holder == c.sh.holder
    ensures c.sh.holder.Some? && c.sh.holder.value.Agent? ==> c'.sh.holder == c.sh.holder && c'.sh.depth == c.sh.depth
    ensures |c'.sh.req| == |c.sh.req|
  {
    hide OwnerEdge;
    var s, pc, p := c.sh, c.pc, c'.pc;
    OwnerDepth(s, pc, act, p);
    HolderMoves(s, Owner, act, ODepth(pc), ODepth(p));
    OwnerStatus(s, pc, act, p);
    OwnerBlocked(s, pc, act, p);
    OwnerAbout(s, pc, act, p);
    OwnerTake(s, pc, act, p);
    OwnerAck(s, pc, act, p);
    OwnerNeverNew(s, pc, act, p);
  }

  lemma OwnerNeverNew(s: Shared, pc: OPc, act: Action, p: OPc)
    requires OwnerEdge(s, pc, act, p)
    ensures p != Unborn && pc != Unborn
    ensures s.status != New ==> Do(s, Owner, act).status != New
    ensures |Do(s, Owner, act).req| == |s.req| && |Do(s, Owner, act).blk| == |s.blk|
  {
    match pc
    case Run =>
    case Cb(r, b) => CheckBlockGoesOn(s, r, b, act, p);
    case En(e, n) => EnterGoesOn(s, e, n, act, p);
    case _ =>
  }

  /** Whoever holds the monitor is an agent, so the thread's step leaves what it protects alone. */
  lemma OwnerKeepsSaw(s: Shared, pc: OPc, act: Action, p: OPc, j: Job, at: AtPc)
    requires OwnerEdge(s, pc, act, p) && Enabled(s, Owner, act) && TakeFits(s, pc) && Saw(s, at)
    requires ADepth(j, at) > 0 ==> ODepth(pc) == 0 && s.holder.Some? && s.holder != Some(Owner)
    ensures Saw(Do(s, Owner, act), at)
    ensures ADepth(j, at) > 0 ==> Calls(Do(s, Owner, act), at) == Calls(s, at)
  {
    hide OwnerEdge;
    OwnerNeverNew(s, pc, act, p);
    if ADepth(j, at) > 0 {
      OwnerUnlocked(s, pc, act, p);
      OwnerTake(s, pc, act, p);
    }
  }

  lemma OwnerKeepsAgent(c: Cell, c': Cell, act: Action, r: nat)
    requires OwnerNext(c, c', act) && OwnerInv(c) && ReqInv(c) && r < |c.ags| && AgentInv(c, r)
    requires HolderAct(c).Act? ==> AgentInv(c, c.sh.holder.value.id)
    ensures AgentInv(c', r)
  {
    hide OwnerEdge, OwnerInv, AskFits;
    var s, pc, p := c.sh, c.pc, c'.pc;
    OwnerHolder(c, c', act);
    if c.ags[r].Act? {
      var j, at := c.ags[r].j, c.ags[r].at;
      OwnerKeepsSaw(s, pc, act, p, j, at);
      OwnerKeepsAskFits(c, c', act, r);
      if Agent(r) in c'.sh.asleep {
        OwnerAsleepSame(s, pc, act, p, Agent(r));
        assert ReqOk(s, pc, j.ad, HolderBusy(c, j.ad));
        OwnerSleeper(s, pc, act, p, j.ad, HolderCalls(c));
        OwnerKeepsCalls(c, c', act);
      }
    } else {
      if Agent(r) in c'.sh.asleep { OwnerAsleepSame(s, pc, act, p, Agent(r)); }
    }
  }

  lemma OwnerAsleepSame(s: Shared, pc: OPc, act: Action, p: OPc, w: Who)
    requires w in Do(s, Owner, act).asleep && w != Owner
    ensures w in s.asleep && act != Broadcast
  {
  }

  lemma OwnerHolder(c: Cell, c': Cell, act: Action)
    requires OwnerNext(c, c', act) && OwnerInv(c)
    ensures OwnerInv(c') && HolderAct(c') == HolderAct(c) && c'.ags == c.ags && |c'.sh.req| == |c.sh.req|
    ensures c'.pc != Unborn
    ensures forall r, d :: 0 <= r < |c.ags| && HeldBy(c.sh, Agent(r), d) ==>
            HeldBy(c'.sh, Agent(r), d) && (d > 0 ==> ODepth(c.pc) == 0)
    ensures forall r :: 0 <= r < |c.ags| ==> (c'.sh.holder == Some(Agent(r)) <==> c.sh.holder == Some(Agent(r)))
    ensures TakeFits(c.sh, c.pc)
  {
    hide OwnerEdge;
    OwnerKeepsOwner(c, c', act);
    OwnerNeverNew(c.sh, c.pc, act, c'.pc);
  }

  lemma OwnerKeepsCalls(c: Cell, c': Cell, act: Action)
    requires OwnerNext(c, c', act) && OwnerInv(c)
    requires HolderAct(c).Act? ==> AgentInv(c, c.sh.holder.value.id)
    ensures HolderCalls(c') == HolderCalls(c)
  {
    hide OwnerEdge;
    OwnerHolder(c, c', act);
    if HolderAct(c).Act? {
      OwnerKeepsSaw(c.sh, c.pc, act, c'.pc, HolderAct(c).j, HolderAct(c).at);
    }
  }

  lemma OwnerKeepsReq(c: Cell, c': Cell, act: Action)
    requires OwnerNext(c, c', act) && OwnerInv(c) && ReqInv(c)
    ensures ReqInv(c')
  {
    hide OwnerEdge;
    OwnerHolder(c, c', act);
    forall a | 0 <= a < |c'.sh.req|
      ensures ReqOk(c'.sh, c'.pc, a, HolderBusy(c', a))
    {
      assert ReqOk(c.sh, c.pc, a, HolderBusy(c, a));
      OwnerReq(c.sh, c.pc, act, c'.pc, a, HolderBusy(c, a));
    }
  }

  lemma OwnerKeepsSleep(c: Cell, c': Cell, act: Action)
    requires OwnerNext(c, c', act) && OwnerInv(c) && ReqInv(c) && SleepInv(c)
    requires HolderAct(c).Act? ==> AgentInv(c, c.sh.holder.value.id)
    ensures SleepInv(c')
  {
    hide OwnerEdge;
    forall a | 0 <= a < |c.sh.req| && c.sh.req[a] ensures !Acked(c.pc, a) {
      assert ReqOk(c.sh, c.pc, a, HolderBusy(c, a));
    }
    OwnerSleep(c.sh, c.pc, act, c'.pc, HolderCalls(c));
    OwnerKeepsCalls(c, c', act);
  }

  lemma OwnerKeepsPledge(c: Cell, c': Cell, act: Action, r: nat)
    requires OwnerNext(c, c', act) && OwnerInv(c) && r < |c.ags| && Pledge(c, r)
    ensures Pledge(c', r)
  {
    hide OwnerEdge;
    OwnerHolder(c, c', act);
    if c.ags[r].Act? { OwnerStopped(c.sh, c.pc, act, c'.pc, c.ags[r].j.ad); }
  }

  lemma OwnerKeepsAskFits(c: Cell, c': Cell, act: Action, r: nat)
    requires OwnerNext(c, c', act) && OwnerInv(c) && r < |c.ags| && c.ags[r].Act?
    requires JobOk(|c.sh.req|, r, c.ags[r].j) && HeldBy(c.sh, Agent(r), ADepth(c.ags[r].j, c.ags[r].at))
    requires AskFits(c.sh, c.ags[r].j, c.ags[r].at)
    ensures AskFits(c'.sh, c.ags[r].j, c.ags[r].at)
  {
    hide OwnerEdge, AskFits;
    var j, at := c.ags[r].j, c.ags[r].at;
    OwnerHolder(c, c', act);
    if ADepth(j, at) > 0 {
      OwnerUnlocked(c.sh, c.pc, act, c'.pc);
      OwnerTake(c.sh, c.pc, act, c'.pc);
      AskFitsSame(c.sh, c'.sh, j, at);
    } else {
      AskFitsOutside(c'.sh, j, at);
    }
  }

  lemma OwnerKeepsCell(c: Cell, c': Cell, act: Action)
    requires OwnerNext(c, c', act) && CellInv(c)
    ensures CellInv(c')
  {
    hide OwnerEdge;
    if HolderAct(c).Act? { assert AgentInv(c, c.sh.holder.value.id); }
    OwnerHolder(c, c', act);
    forall r | 0 <= r < |c'.ags| ensures AgentInv(c', r) {
      assert AgentInv(c, r);
      OwnerKeepsAgent(c, c', act, r);
    }
    OwnerKeepsReq(c, c', act);
    OwnerKeepsSleep(c, c', act);
    if c.ags[COLLECTOR].Act? && c.ags[COLLECTOR].j.ad == GC { OwnerKeepsPledge(c, c', act, COLLECTOR); }
  }

  // ---------------------------------------------------------------- steps of an agent

  /** An agent that takes a step is alone: the thread is outside its critical sections, and so is
      every other agent. */
  lemma AgentAlone(c: Cell, r: nat, act: Action, p: AtPc)
    requires r < |c.ags| && OwnerInv(c) && AgentInv(c, r) && c.ags[r].Act?
    requires AgentEdge(c.sh, c.ags[r].j, c.ags[r].at, act, p) && Enabled(c.sh, Agent(r), act)
    ensures ODepth(c.pc) == 0
    ensures c.sh.holder == Some(Agent(r)) || (c.sh.holder == None && ADepth(c.ags[r].j, c.ags[r].at) == 0)
  {
  }

  lemma AgentKeepsOwner(c: Cell, c': Cell, r: nat, act: Action, p: AtPc)
    requires AgentNext(c, c', r, Step(act, p)) && OwnerInv(c) && AgentInv(c, r)
    ensures OwnerInv(c') && |c'.sh.req| == |c.sh.req|
    ensures HeldBy(c'.sh, Agent(r), ADepth(c.ags[r].j, p)) && Saw(c'.sh, p) && AtFits(c.ags[r].j, p)
    ensures c'.sh.holder == None || c'.sh.holder == Some(Agent(r))
    ensures c'.sh.status == New ==> c.sh.status == New
  {
    hide AgentEdge;
    var s, j, at := c.sh, c.ags[r].j, c.ags[r].at;
    AgentAlone(c, r, act, p);
    AgentDepth(s, j, at, act, p);
    HolderMoves(s, Agent(r), act, ADepth(j, at), ADepth(j, p));
    AgentSaw(s, c.pc, Agent(r), j, at, act, p);
    RemoteStatus(s.status, c.pc);
    AgentFrame(s, c.pc, Agent(r), j, at, act, p);
  }

  lemma AgentFrame(s: Shared, pc: OPc, w: Who, j: Job, at: AtPc, act: Action, p: AtPc)
    requires AgentEdge(s, j, at, act, p) && Saw(s, at) && ODepth(pc) == 0 && StatusFits(s.status, pc)
    requires BlockedFits(s, pc) && TakeFits(s, pc)
    ensures var t := Do(s, w, act);
            && BlockedFits(t, pc) && AckFits(t, pc) && TakeFits(t, pc) && t.about == s.about
            && |t.req| == |s.req| && |t.blk| == |s.blk|
  {
    RemoteStatus(s.status, pc);
  }

  /** Before and after its step, the agent is the one whose promises count. */
  lemma AgentPromises(c: Cell, c': Cell, r: nat, act: Action, p: AtPc)
    requires AgentNext(c, c', r, Step(act, p)) && OwnerInv(c) && AgentInv(c, r)
    ensures HolderCalls(c) == Calls(c.sh, c.ags[r].at) && HolderCalls(c') == Calls(c'.sh, p)
    ensures forall a :: HolderBusy(c, a) == Busy(c.ags[r].j, c.ags[r].at, a)
    ensures forall a :: HolderBusy(c', a) == Busy(c.ags[r].j, p, a)
    ensures forall a :: HolderSets(c, a) == (c.ags[r].at.Set? && c.ags[r].j.ad == a)
    ensures forall a :: HolderSets(c', a) == (p.Set? && c.ags[r].j.ad == a)
  {
    hide AgentEdge;
    AgentAlone(c, r, act, p);
    AgentKeepsOwner(c, c', r, act, p);
  }

  lemma AgentKeepsSelf(c: Cell, c': Cell, r: nat, act: Action, p: AtPc)
    requires AgentNext(c, c', r, Step(act, p)) && OwnerInv(c) && AgentInv(c, r) && ReqInv(c)
    ensures AgentInv(c', r)
  {
    hide AskFits;
    var j, at := c.ags[r].j, c.ags[r].at;
    AgentAlone(c, r, act, p);
    AgentKeepsOwner(c, c', r, act, p);
    AgentPromises(c, c', r, act, p);
    AskFitsStep(|c.sh.req|, c.sh, r, j, at, act, p);
    if at == Check && p == Sleep {
      assert ReqOk(c.sh, c.pc, j.ad, HolderBusy(c, j.ad));
      AgentFallsAsleep(c.sh, c.pc, j);
    }
  }

  /** An agent outside its critical section knows nothing but that the thread has been started. */
  lemma OutsideSaw(s: Shared, t: Shared, j: Job, at: AtPc)
    requires Saw(s, at) && ADepth(j, at) == 0 && (t.status == New ==> s.status == New)
    ensures Saw(t, at)
  {
  }

  lemma AgentKeepsOther(c: Cell, c': Cell, r: nat, act: Action, p: AtPc, q: nat)
    requires AgentNext(c, c', r, Step(act, p)) && OwnerInv(c) && AgentInv(c, r)
    requires q < |c.ags| && q != r && AgentInv(c, q)
    ensures AgentInv(c', q)
  {
    hide AgentEdge, OwnerInv, Saw, AtFits, ADepth, Calls, SleeperOk, HolderCalls, AskFits;
    AgentAlone(c, r, act, p);
    AgentKeepsOwner(c, c', r, act, p);
    if c.ags[q].Act? {
      OutsideSaw(c.sh, c'.sh, c.ags[q].j, c.ags[q].at);
      AskFitsOutside(c'.sh, c.ags[q].j, c.ags[q].at);
    }
    if Agent(q) in c'.sh.asleep {
      AgentAsleepSame(c.sh, r, c.ags[r].j, c.ags[r].at, act, p, Agent(q));
      AgentPromises(c, c', r, act, p);
      AgentSleeper(c.sh, c.pc, r, c.ags[r].j, c.ags[r].at, act, p, c.ags[q].j.ad);
    }
  }

  lemma AgentAsleepSame(s: Shared, r: nat, j: Job, at: AtPc, act: Action, p: AtPc, w: Who)
    requires AgentEdge(s, j, at, act, p)
    requires w in Do(s, Agent(r), act).asleep && w != Agent(r)
    ensures w in s.asleep && act != Broadcast
  {
  }

  lemma AgentKeepsRest(c: Cell, c': Cell, r: nat, act: Action, p: AtPc)
    requires AgentNext(c, c', r, Step(act, p)) && OwnerInv(c) && AgentInv(c, r) && ReqInv(c) && SleepInv(c)
    ensures ReqInv(c') && SleepInv(c')
  {
    hide AgentEdge;
    var j, at := c.ags[r].j, c.ags[r].at;
    AgentAlone(c, r, act, p);
    AgentKeepsOwner(c, c', r, act, p);
    AgentPromises(c, c', r, act, p);
    forall a | 0 <= a < |c'.sh.req|
      ensures ReqOk(c'.sh, c'.pc, a, HolderBusy(c', a))
    {
      assert ReqOk(c.sh, c.pc, a, HolderBusy(c, a));
      AgentReq(c.sh, c.pc, Agent(r), j, at, act, p, a);
    }
    AgentOwnerSleep(c.sh, c.pc, r, j, at, act, p);
  }

  lemma AgentKeepsPledge(c: Cell, c': Cell, r: nat, act: Action, p: AtPc)
    requires AgentNext(c, c', r, Step(act, p)) && OwnerInv(c) && AgentInv(c, r) && Pledge(c, r)
    ensures Pledge(c', r)
  {
    hide AgentEdge, SyncOk, ResultOk, AskFits;
    var j, at := c.ags[r].j, c.ags[r].at;
    AgentAlone(c, r, act, p);
    AgentKeepsOwner(c, c', r, act, p);
    AgentPromises(c, c', r, act, p);
    if j.kind != Unblock {
      SyncOutside(c.sh, j, at, HolderSets(c, j.ad) && c.sh.holder != Some(Agent(r)));
      RequesterResult(c.started, c.sh, c.pc, r, j, at, act, p);
      SyncMore(c'.sh, j.ad, p, HolderSets(c', j.ad) && c'.sh.holder != Some(Agent(r)));
    }
  }

  /** Nobody else is about to raise the flag. */
  lemma SyncOutside(s: Shared, j: Job, at: AtPc, setting: bool)
    requires SyncOk(s, j.ad, at, setting) && !setting
    ensures SyncOk(s, j.ad, at, false)
  {
  }

  lemma SyncMore(s: Shared, a: nat, at: AtPc, setting: bool)
    requires SyncOk(s, a, at, false)
    ensures SyncOk(s, a, at, setting)
  {
  }

  /** Nobody but an unblock for its adapter takes a request from its requester. */
  lemma OtherKeepsPledge(c: Cell, c': Cell, r: nat, act: Action, p: AtPc, q: nat)
    requires AgentNext(c, c', r, Step(act, p)) && OwnerInv(c) && AgentInv(c, r)
    requires q < |c.ags| && q != r && AgentInv(c, q) && Pledge(c, q)
    requires c.ags[q].Act? ==> !(c.ags[r].j.kind == Unblock && c.ags[r].j.ad == c.ags[q].j.ad)
    ensures Pledge(c', q)
  {
    hide AgentEdge, AskFits, ResultOk, Saw, Calls, Busy, SleeperOk, HolderCalls, HolderBusy, HolderSets;
    var j, at := c.ags[r].j, c.ags[r].at;
    AgentAlone(c, r, act, p);
    AgentKeepsOwner(c, c', r, act, p);
    AgentPromises(c, c', r, act, p);
    var w := c.ags[q];
    if w.Act? && w.j.kind != Unblock {
      OtherStopped(c.sh, r, j, at, act, p, w.j.ad);
      ResultLasts(c.started, c.sh, c'.sh, w.j, w.at);
    }
  }

  lemma ResultLasts(started: bool, s: Shared, t: Shared, j: Job, at: AtPc)
    requires ResultOk(started, s, j, at) && (StoppedFor(s, j.ad) ==> StoppedFor(t, j.ad))
    ensures ResultOk(started, t, j, at)
  {
  }

  lemma EventKeepsCell(c: Cell, c': Cell, r: nat, ev: AEv)
    requires AgentNext(c, c', r, ev) && CellInv(c) && !ev.Step?
    ensures CellInv(c')
  {
    hide Saw, AtFits, ADepth, Calls, SleeperOk, ReqOk, Busy, AskFits, SyncOk, ResultOk, OwnerSleepOk, StatusFits,
      BlockedFits;
    assert AgentInv(c, r);
    EventHolder(c, c', r, ev);
    if ev.Begin? { BeginFits(c, ev.job); }
    forall q | 0 <= q < |c'.ags| ensures AgentInv(c', q) {
      assert AgentInv(c, q);
    }
    forall a | 0 <= a < |c'.sh.req|
      ensures ReqOk(c'.sh, c'.pc, a, HolderBusy(c', a))
    {
      assert ReqOk(c.sh, c.pc, a, HolderBusy(c, a));
    }
  }

  /** An agent begins with nothing to answer for. */
  lemma BeginFits(c: Cell, j: Job)
    requires j.test ==> j.nested
    ensures AtFits(j, FirstPc(j)) && ADepth(j, FirstPc(j)) == 0 && Saw(c.sh, FirstPc(j)) && FirstPc(j) != Sleep
    ensures SyncOk(c.sh, j.ad, FirstPc(j), false) && SyncOk(c.sh, j.ad, FirstPc(j), true)
    ensures ResultOk(c.started, c.sh, j, FirstPc(j))
    ensures AskFits(c.sh, j, FirstPc(j))
  {
  }

  lemma EventHolder(c: Cell, c': Cell, r: nat, ev: AEv)
    requires AgentNext(c, c', r, ev) && OwnerInv(c) && AgentInv(c, r) && !ev.Step?
    ensures HolderAct(c') == HolderAct(c) && c'.sh == c.sh && c'.pc == c.pc
  {
  }

  lemma AgentKeepsCell(c: Cell, c': Cell, r: nat, ev: AEv)
    requires AgentNext(c, c', r, ev) && CellInv(c)
    ensures CellInv(c')
  {
    hide AgentEdge;
    if !ev.Step? {
      EventKeepsCell(c, c', r, ev);
      return;
    }
    assert AgentInv(c, r);
    AgentKeepsOwner(c, c', r, ev.act, ev.p);
    AgentKeepsSelf(c, c', r, ev.act, ev.p);
    forall q | 0 <= q < |c'.ags| ensures AgentInv(c', q) {
      assert AgentInv(c, q);
      if q != r { AgentKeepsOther(c, c', r, ev.act, ev.p, q); }
    }
    AgentKeepsRest(c, c', r, ev.act, ev.p);
    assert AgentInv(c, COLLECTOR);
    if c.ags[COLLECTOR].Act? && c.ags[COLLECTOR].j.ad == GC {
      if r == COLLECTOR {
        AgentKeepsPledge(c, c', r, ev.act, ev.p);
      } else {
        OtherKeepsPledge(c, c', r, ev.act, ev.p, COLLECTOR);
      }
    }
  }
}

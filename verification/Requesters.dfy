/** What `block_unchecked` and `unblock` achieve, whoever calls them and for whichever adapter. */
module Requesters {
  import opened Options
  import opened StopTheWorld
  import opened System
  import opened SystemInvariant
  import opened ThreadCell
  import opened ThreadProgram
  import opened WakeFacts

  /** Agent `r` is through with `job` on thread `t` and about to give up a guard of its monitor. */
  predicate Through(s: System, t: nat, r: nat, job: Job, res: Res) {
    && t < |s.cells| && r < |s.cells[t].ags|
    && (s.cells[t].ags[r] == Act(job, InnerUnlock(res)) || s.cells[t].ags[r] == Act(job, OuterUnlock(res)))
  }

  /** An asynchronous request comes to one of five things, and its answer tells which: the thread is
      terminating; it is blocked and was in native state; the request is pending on a thread that is
      marked to block and whose next yieldpoint is taken; the same on a thread that is still `New`; or,
      with the short circuit, the thread was blocked already. */
  lemma RequestOutcome(run: seq<System>, labels: seq<Label>, i: nat, t: nat, r: nat, job: Job, res: Res)
    requires IsRun(run, labels) && i < |run| && Through(run[i], t, r, job, res) && job.kind == BlockAsync
    ensures run[i].cells[t].sh.holder == Some(Agent(r)) && Answered(run[i].cells[t].sh, job, res)
  {
    RunInv(run, labels, i);
    ThroughCell(run[i].cells[t], r, job, res);
  }

  /** `unblock` leaves neither request nor flag for its adapter, and nobody asleep who was not notified. */
  lemma UnblockClears(run: seq<System>, labels: seq<Label>, i: nat, t: nat, r: nat, job: Job, res: Res)
    requires IsRun(run, labels) && i < |run| && Through(run[i], t, r, job, res) && job.kind == Unblock && !job.test
    ensures run[i].cells[t].sh.holder == Some(Agent(r))
    ensures res == Unit && IsResumed(run[i].cells[t].sh, job.ad)
  {
    RunInv(run, labels, i);
    ThroughCell(run[i].cells[t], r, job, res);
  }

  lemma ThroughCell(c: Cell, r: nat, job: Job, res: Res)
    requires CellInv(c) && r < |c.ags|
    requires c.ags[r] == Act(job, InnerUnlock(res)) || c.ags[r] == Act(job, OuterUnlock(res))
    ensures c.sh.holder == Some(Agent(r))
    ensures job.kind == BlockAsync ==> Answered(c.sh, job, res)
    ensures job.kind == Unblock && !job.test ==> res == Unit && IsResumed(c.sh, job.ad)
  {
    assert AgentInv(c, r);
  }

  // ---------------------------------------------------------------- synchronous requests

  /** Nobody is in the middle of an `unblock` for the adapter. */
  predicate NoUnblock(c: Cell, a: nat) {
    forall q :: 0 <= q < |c.ags| && c.ags[q].Act? ==> !(c.ags[q].j.kind == Unblock && c.ags[q].j.ad == a)
  }

  /** Agent `r` carries `job` out on thread `t` all the while, and nobody takes its block away. */
  predicate Carries(s: System, t: nat, r: nat, job: Job) {
    && t < |s.cells| && r < |s.cells[t].ags|
    && s.cells[t].ags[r].Act? && s.cells[t].ags[r].j == job && NoUnblock(s.cells[t], job.ad)
  }

  predicate Begins(s: System, t: nat, r: nat, job: Job) {
    Carries(s, t, r, job) && s.cells[t].ags[r].at == FirstPc(job)
  }

  lemma CellKeepsPledge(c: Cell, c': Cell, q: nat, ev: AEv, r: nat)
    requires AgentNext(c, c', q, ev) && CellInv(c) && r < |c.ags| && Pledge(c, r)
    requires c.ags[r].Act? && c'.ags[r].Act? && NoUnblock(c, c.ags[r].j.ad)
    ensures Pledge(c', r)
  {
    hide AgentEdge, OwnerInv, ReqInv, SleepInv, GcInv;
    assert AgentInv(c, q) && AgentInv(c, r);
    if !ev.Step? {
      EventHolder(c, c', q, ev);
    } else if q == r {
      AgentKeepsPledge(c, c', r, ev.act, ev.p);
    } else {
      OtherKeepsPledge(c, c', q, ev.act, ev.p, r);
    }
  }

  lemma NextKeepsPledge(s: System, s': System, l: Label, t: nat, r: nat, job: Job)
    requires SysInv(s) && Next(s, s', l) && Carries(s, t, r, job) && Carries(s', t, r, job)
    requires Pledge(s.cells[t], r)
    ensures Pledge(s'.cells[t], r)
  {
    hide Pledge, CellInv, OwnerNext, AgentNext, CollectorStep, Touches, GcFacts, NoUnblock;
    var c, c' := s.cells[t], s'.cells[t];
    WasBorn(c, r);
    match l
    case LThread(q, act) =>
      if q == t {
        assert OwnerInv(c) by { CellParts(c); }
        OwnerKeepsPledge(c, c', act, r);
      }
    case LAgent(q, x, ev) => if q == t { CellKeepsPledge(c, c', x, ev, r); }
    case LCollector(res) => CollectorMoves(s, s', res, t, r);
    case _ =>
  }

  lemma CellParts(c: Cell)
    requires CellInv(c)
    ensures OwnerInv(c)
  {
  }

  lemma WasBorn(c: Cell, r: nat)
    requires CellInv(c) && r < |c.ags| && c.ags[r].Act?
    ensures c.pc != Unborn
  {
    assert AgentInv(c, r);
  }

  /** A step of the collector itself leaves the cell alone, or begins or ends one errand. */
  lemma CollectorMoves(s: System, s': System, res: Res, t: nat, r: nat)
    requires SysInv(s) && CollectorStep(s, s', res) && t < |s.cells| && t < |s'.cells|
    requires r < |s.cells[t].ags| && r < |s'.cells[t].ags| && s.cells[t].ags[r].Act? && s'.cells[t].ags[r].Act?
    requires Pledge(s.cells[t], r) && NoUnblock(s.cells[t], s.cells[t].ags[r].j.ad)
    ensures Pledge(s'.cells[t], r)
  {
    hide Pledge, CellInv, AgentNext, Select, NoUnblock, GcFacts;
    var c, c' := s.cells[t], s'.cells[t];
    if c != c' {
      var ev :| AgentNext(c, c', COLLECTOR, ev);
      CellKeepsPledge(c, c', COLLECTOR, ev, r);
    }
  }

  lemma {:induction false} PledgeLasts(run: seq<System>, labels: seq<Label>, b: nat, i: nat, t: nat, r: nat, job: Job)
    requires IsRun(run, labels) && b <= i < |run| && Begins(run[b], t, r, job)
    requires forall m :: b <= m <= i ==> Carries(run[m], t, r, job)
    ensures Carries(run[i], t, r, job) && Pledge(run[i].cells[t], r)
    decreases i
  {
    hide Next, SysInv, NoUnblock;
    assert Carries(run[i], t, r, job);
    if i > b {
      assert Carries(run[i - 1], t, r, job);
      PledgeLasts(run, labels, b, i - 1, t, r, job);
      RunInv(run, labels, i - 1);
      NextKeepsPledge(run[i - 1], run[i], labels[i - 1], t, r, job);
    }
  }

  /** A synchronous `block_unchecked` by any requester and for any adapter, from its first step at `b` to
      its end at `i`: unless somebody unblocks the thread for that adapter meanwhile, it ends with the
      thread blocked for it or terminating, or it found a thread that was never started. */
  lemma SynchronousRequestSettles(run: seq<System>, labels: seq<Label>, b: nat, i: nat,
                                  t: nat, r: nat, job: Job, res: Res)
    requires IsRun(run, labels) && b <= i < |run| && job.kind == BlockSync
    requires Begins(run[b], t, r, job) && forall m :: b <= m <= i ==> Carries(run[m], t, r, job)
    requires t < |run[i].cells| && r < |run[i].cells[t].ags| && run[i].cells[t].ags[r] == Act(job, Done(res))
    ensures StoppedFor(run[i].cells[t].sh, job.ad) || (res == State(New) && !run[i].cells[t].started)
  {
    PledgeLasts(run, labels, b, i, t, r, job);
  }
}

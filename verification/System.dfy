/** The whole thread system: any number of threads, the registry of threads, the locks that
    `lock_with_handshake` hands out, and one collector that stops and resumes the mutators. */
module System {
  import opened Options
  import opened ThreadCell
  import opened ThreadProgram

  datatype RegWho = RegThread(t: nat) | RegCollector

  /** Program counter of the collector.  `seen` is the length the registry had in the previous
      complete pass of `block_all_mutators_for_gc`, or in the last one. */
  datatype GcPc =
    | GcIdle
    // block_all_mutators_for_gc
    | GcLock(seen: nat)
    | GcSnap(seen: nat)
    | GcRetain(list: seq<nat>, i: nat, kept: seq<nat>, seen: nat)
    | GcAsk(list: seq<nat>, i: nat, kept: seq<nat>, seen: nat)
    | GcTest(kept: seq<nat>, seen: nat)
    | GcPop(work: seq<nat>, seen: nat)
    | GcBlock(work: seq<nat>, t: nat, seen: nat)
    | GcRelock(seen: nat)
    | GcFilter(seen: nat, i: nat, result: seq<nat>)
    | GcStopped(seen: nat, result: seq<nat>)
    // unblock_all_mutators_for_gc
    | UnLock
    | UnSnap
    | UnPop(work: seq<nat>)
    | UnBlock(work: seq<nat>, t: nat)

  /** What the requests of the current collection have come to: the threads whose last stop request
      found them `New`, those of which any did, and those that `unblock_all_mutators_for_gc` has dealt
      with.  Nobody reads it; it is for the record. */
  datatype Found = Found(last: set<nat>, ever: set<nat>, resumed: set<nat>)

  function Told(f: Found, t: nat, res: Res): Found {
    if res == State(New) then f.(last := f.last + {t}, ever := f.ever + {t}) else f.(last := f.last - {t})
  }

  datatype System = System(
    cells: seq<Cell>,
    registry: seq<nat>,             // in order of registration; `main` is there twice
    regHolder: Option<RegWho>,
    locks: seq<Option<nat>>,        // owner of each lock
    gc: GcPc,
    found: Found)

  predicate IsMutator(c: Cell) {
    !c.collector && !c.ignoring
  }

  predicate IsResumable(c: Cell) {
    !c.collector
  }

  // ---------------------------------------------------------------- threads

  /** How a step of thread `t` from `p` to `q` touches the locks and the registry. */
  predicate Touches(s: System, s': System, t: nat, p: OPc, q: OPc) {
    if p == Run && q.En? && q.e.IntoQueue? then
      && q.e.l < |s.locks| && s.locks[q.e.l] != Some(t)
      && s'.locks == s.locks && s'.registry == s.registry && s'.regHolder == s.regHolder
    else if p.Hl? && p.h == HQueued then
      && p.l < |s.locks| && s.locks[p.l] == None && s'.locks == s.locks[p.l := Some(t)]
      && s'.registry == s.registry && s'.regHolder == s.regHolder
    else if p.Hl? && p.h == HDrop then
      && p.l < |s.locks| && s'.locks == s.locks[p.l := None]
      && s'.registry == s.registry && s'.regHolder == s.regHolder
    else if p == Bt(BSweep) then
      && s.regHolder == None && s'.regHolder == Some(RegThread(t)) && s'.registry == s.registry && s'.locks == s.locks
    else if p == Bt(BSwept) then
      && s'.regHolder == None && s'.registry == s.registry && s'.locks == s.locks
    else if p.Rg? then
      && s'.locks == s.locks
      && match p.g
         case GQueued => s.regHolder == None && s'.regHolder == Some(RegThread(t)) && s'.registry == s.registry
         case GPush => s'.regHolder == s.regHolder && s'.registry == s.registry + [t]
         case GUnlock => s'.regHolder == None && s'.registry == s.registry
    else
      s'.locks == s.locks && s'.registry == s.registry && s'.regHolder == s.regHolder
  }

  predicate ThreadStep(s: System, s': System, t: nat, act: Action) {
    && t < |s.cells| && |s'.cells| == |s.cells|
    && OwnerNext(s.cells[t], s'.cells[t], act)
    && s'.cells == s.cells[t := s'.cells[t]]
    && Touches(s, s', t, s.cells[t].pc, s'.cells[t].pc)
    && s'.gc == s.gc && s'.found == s.found
  }

  /** Managed code drops the last guard of a lock. */
  predicate ReleaseStep(s: System, s': System, t: nat, l: nat) {
    && t < |s.cells| && s.cells[t].pc == Run
    && l < |s.locks| && s.locks[l] == Some(t)
    && s' == s.(locks := s.locks[l := None])
  }

  /** A thread object comes to life: `start` marks it `InManaged` first, `register_mutator_manual`
      leaves it `New`. */
  predicate BirthStep(s: System, s': System, t: nat) {
    && t < |s.cells| && s.cells[t].pc == Unborn
    && s' == s.(cells := s.cells[t := Born(s.cells[t])])
  }

  function Born(c: Cell): Cell {
    c.(pc := Bt(BEnable), sh := c.sh.(status := if c.started then InManaged else New))
  }

  /** `main` registers its thread before that thread registers itself. */
  predicate MainStep(s: System, s': System, t: nat) {
    && t < |s.cells| && s.cells[t].pc == Unborn && s.cells[t].started
    && s.registry == [] && s.regHolder == None
    && s' == s.(cells := s.cells[t := Born(s.cells[t])], registry := [t])
  }

  predicate AgentStep(s: System, s': System, t: nat, r: nat, ev: AEv) {
    && t < |s.cells| && |s'.cells| == |s.cells|
    && (r == COLLECTOR ==> ev.Step?)
    && AgentNext(s.cells[t], s'.cells[t], r, ev)
    && s' == s.(cells := s.cells[t := s'.cells[t]])
  }

  // ---------------------------------------------------------------- the collector

  /** The threads of the registry that satisfy `p`, in order. */
  function Select(reg: seq<nat>, cells: seq<Cell>, p: Cell -> bool): (r: seq<nat>)
    ensures forall t :: t in r <==> t in reg && t < |cells| && p(cells[t])
  {
    if reg == [] then []
    else
      var rest := Select(reg[..|reg| - 1], cells, p);
      var t := reg[|reg| - 1];
      if t < |cells| && p(cells[t]) then rest + [t] else rest
  }

  const RetainJob: Job := Job(BlockAsync, GC, true, true)
  const StopJob: Job := Job(BlockSync, GC, true, false)
  const ResumeJob: Job := Job(Unblock, GC, true, false)

  /** `ThreadState::not_running`, or already blocked: the thread leaves the worklist. */
  predicate Leaves(res: Res) {
    res == Skipped || res == State(New) || res == State(Terminated)
  }

  /** The collector starts, or finishes, `job` on thread `t`. */
  predicate Asks(s: System, s': System, t: nat, ev: AEv) {
    && t < |s.cells| && |s'.cells| == |s.cells|
    && AgentNext(s.cells[t], s'.cells[t], COLLECTOR, ev)
    && s'.cells == s.cells[t := s'.cells[t]]
    && s'.registry == s.registry && s'.regHolder == s.regHolder && s'.locks == s.locks
  }

  /** One step of `block_all_mutators_for_gc`.  The registry stays locked for a whole pass. */
  predicate BlockAllStep(s: System, s': System, res: Res) {
    match s.gc
    case GcLock(n) => s.regHolder == None && s' == s.(regHolder := Some(RegCollector), gc := GcSnap(n))
    case GcSnap(n) => s' == s.(gc := GcRetain(Select(s.registry, s.cells, IsMutator), 0, [], n))
    case GcRetain(list, i, kept, n) =>
      if i < |list| then
        && Asks(s, s', list[i], Begin(RetainJob)) && s'.gc == GcAsk(list, i, kept, n) && s'.found == s.found
      else s' == s.(gc := GcTest(kept, n))
    case GcAsk(list, i, kept, n) =>
      && i < |list|
      && Asks(s, s', list[i], End(RetainJob, res))
      && s'.gc == GcRetain(list, i + 1, if Leaves(res) then kept else kept + [list[i]], n)
      && s'.found == Told(s.found, list[i], res)
    case GcTest(kept, n) =>
      if kept == [] then s' == s.(regHolder := None, gc := GcRelock(|s.registry|))
      else s' == s.(gc := GcPop(kept, n))
    case GcPop(work, n) =>
      if work == [] then s' == s.(regHolder := None, gc := GcLock(|s.registry|))
      else
        var t := work[|work| - 1];
        Asks(s, s', t, Begin(StopJob)) && s'.gc == GcBlock(work[..|work| - 1], t, n) && s'.found == s.found
    case GcBlock(work, t, n) =>
      && Asks(s, s', t, End(StopJob, res)) && s'.gc == GcPop(work, n)
      && s'.found == Told(s.found, t, res)
    // the final list
    case GcRelock(n) => s.regHolder == None && s' == s.(regHolder := Some(RegCollector), gc := GcFilter(n, 0, []))
    case GcFilter(n, i, result) =>
      if i < |s.registry| then
        var t := s.registry[i];
        && t < |s.cells|
        && s' == s.(gc := GcFilter(n, i + 1, if Get(s.cells[t].sh.blk, GC) then result + [t] else result))
      else s' == s.(regHolder := None, gc := GcStopped(n, result))
    case _ => false
  }

  /** One step of `unblock_all_mutators_for_gc`. */
  predicate UnblockAllStep(s: System, s': System, res: Res) {
    match s.gc
    case UnLock => s.regHolder == None && s' == s.(regHolder := Some(RegCollector), gc := UnSnap)
    case UnSnap => s' == s.(gc := UnPop(Select(s.registry, s.cells, IsResumable)), found := s.found.(resumed := {}))
    case UnPop(work) =>
      if work == [] then s' == s.(regHolder := None, gc := GcIdle)
      else
        var t := work[|work| - 1];
        Asks(s, s', t, Begin(ResumeJob)) && s'.gc == UnBlock(work[..|work| - 1], t) && s'.found == s.found
    case UnBlock(work, t) =>
      && Asks(s, s', t, End(ResumeJob, res)) && s'.gc == UnPop(work)
      && s'.found == s.found.(resumed := s.found.resumed + {t})
    case _ => false
  }

  predicate CollectorStep(s: System, s': System, res: Res) {
    || (s.gc == GcIdle && s' == s.(gc := GcLock(0), found := Found({}, {}, {})))
    || BlockAllStep(s, s', res)
    || (s.gc.GcStopped? && s' == s.(gc := UnLock))
    || UnblockAllStep(s, s', res)
  }

  // ---------------------------------------------------------------- runs

  datatype Label = LThread(t: nat, act: Action) | LRelease(t: nat, l: nat) | LBirth(t: nat) | LMain(t: nat)
    | LAgent(t: nat, r: nat, ev: AEv) | LCollector(res: Res)

  predicate Next(s: System, s': System, l: Label) {
    match l
    case LThread(t, act) => ThreadStep(s, s', t, act)
    case LRelease(t, k) => ReleaseStep(s, s', t, k)
    case LBirth(t) => BirthStep(s, s', t)
    case LMain(t) => MainStep(s, s', t)
    case LAgent(t, r, ev) => AgentStep(s, s', t, r, ev)
    case LCollector(res) => CollectorStep(s, s', res)
  }

  predicate Fresh(c: Cell) {
    && c.pc == Unborn
    && GC < |c.sh.req| == |c.sh.blk|
    && (forall a :: 0 <= a < |c.sh.req| ==> !c.sh.req[a] && !c.sh.blk[a])
    && c.sh.status == New && c.sh.take == 0 && !c.sh.pending && c.sh.count == 0 && !c.sh.about
    && c.sh.holder == None && c.sh.depth == 0 && c.sh.asleep == {}
    && COLLECTOR < |c.ags| && (forall r :: 0 <= r < |c.ags| ==> c.ags[r] == Idle)
  }

  predicate Init(s: System) {
    && (forall t :: 0 <= t < |s.cells| ==> Fresh(s.cells[t]))
    && s.registry == [] && s.regHolder == None
    && (forall l :: 0 <= l < |s.locks| ==> s.locks[l] == None)
    && s.gc == GcIdle && s.found == Found({}, {}, {})
  }

  /** A run: states, and the labels of the steps between them. */
  predicate IsRun(run: seq<System>, labels: seq<Label>) {
    && |run| == |labels| + 1
    && Init(run[0])
    && forall i :: 0 <= i < |labels| ==> Next(run[i], run[i + 1], labels[i])
  }
}

/** Three runs of the whole system, from its start, in which a stop goes wrong: a thread left `New` by
    `register_mutator_manual` runs on in the stopped world; a thread that enables its yieldpoints
    twice loses a request; and `main`, registered before it goes through `add_thread`, waits for the
    registry that the collector holds while it waits for `main`.

    A second thread, which ignores handshakes and GC, has asked for the collection; asking is a call
    into MMTk and changes nothing here. */
module HandshakeRuns {
  import opened Options
  import opened RegistryQueue
  import opened StopFacts
  import opened System
  import opened ThreadCell
  import opened ThreadProgram
  import opened WakeFacts

  // ---------------------------------------------------------------- paths

  ghost predicate Joins(a: System, s: System, ss: seq<System>, ls: seq<Label>) {
    && |ss| == |ls| + 1 && ss[0] == a && ss[|ls|] == s
    && forall i :: 0 <= i < |ls| ==> Next(ss[i], ss[i + 1], ls[i])
  }

  ghost predicate Reaches(a: System, s: System) {
    exists ss, ls :: Joins(a, s, ss, ls)
  }

  lemma Here(a: System)
    ensures Reaches(a, a)
  {
    assert Joins(a, a, [a], []);
  }

  lemma Then(a: System, s: System, l: Label, s': System)
    requires Reaches(a, s) && Next(s, s', l)
    ensures Reaches(a, s')
  {
    hide Next;
    var ss, ls :| Joins(a, s, ss, ls);
    var ss', ls' := ss + [s'], ls + [l];
    forall i | 0 <= i < |ls'| ensures Next(ss'[i], ss'[i + 1], ls'[i]) {
      if i < |ls| { assert Next(ss[i], ss[i + 1], ls[i]); }
    }
    assert Joins(a, s', ss', ls');
  }

  lemma AsRun(a: System, s: System) returns (run: seq<System>, labels: seq<Label>)
    requires Init(a) && Reaches(a, s)
    ensures IsRun(run, labels) && run[0] == a && run[|labels|] == s
  {
    var ss, ls :| Joins(a, s, ss, ls);
    run, labels := ss, ls;
  }

  // ---------------------------------------------------------------- two threads, one adapter

  /** The rest of the system: the thread that asks, the registry, who holds it, and the collector. */
  datatype Rest = Rest(other: Cell, registry: seq<nat>, regHolder: Option<RegWho>, gc: GcPc, found: Found)

  function Sys(c: Cell, x: Rest): System {
    System([c, x.other], x.registry, x.regHolder, [], x.gc, x.found)
  }

  function One(started: bool, sh: Shared, pc: OPc, ag: APc): Cell {
    Cell(started, false, false, sh, pc, [ag])
  }

  /** The thread that asks. */
  function Asker(sh: Shared, pc: OPc): Cell {
    Cell(true, false, true, sh, pc, [Idle])
  }

  const FreshShared: Shared := Shared(New, [false], [false], 0, false, 0, false, None, 0, {})

  const Nobody: Found := Found({}, {}, {})

  const AskerShared: Shared := FreshShared.(status := InManaged)

  /** Before anything has happened, and with the asker at work. */
  const Empty: Rest := Rest(Asker(FreshShared, Unborn), [], None, GcIdle, Nobody)

  function Ready(registry: seq<nat>): Rest {
    Rest(Asker(AskerShared, Run), registry, None, GcIdle, Nobody)
  }

  lemma StartsHere(started: bool)
    ensures Init(Sys(One(started, FreshShared, Unborn, Idle), Empty))
  {
  }

  lemma Updates(c: Cell, d: Cell, e: Cell)
    ensures [c, d][0 := e] == [e, d] && [c, d][1 := e] == [c, e]
  {
  }

  /** A step of the thread that touches neither registry nor locks. */
  lemma Own(a: System, started: bool, sh: Shared, pc: OPc, ag: APc, x: Rest, act: Action, sh': Shared, p: OPc)
    requires Reaches(a, Sys(One(started, sh, pc, ag), x))
    requires OwnerEdge(sh, pc, act, p) && Enabled(sh, Owner, act) && sh' == Do(sh, Owner, act)
    requires !(p.En? && p.e.IntoQueue?) && !pc.Hl? && !pc.Rg? && pc != Bt(BSweep) && pc != Bt(BSwept)
    ensures Reaches(a, Sys(One(started, sh', p, ag), x))
  {
    hide Reaches, OwnerEdge;
    var c, c' := One(started, sh, pc, ag), One(started, sh', p, ag);
    Updates(c, x.other, c');
    Then(a, Sys(c, x), LThread(0, act), Sys(c', x));
  }

  /** A silent step of `add_thread`. */
  lemma Joined(a: System, started: bool, sh: Shared, pc: OPc, ag: APc, x: Rest, p: OPc, x': Rest)
    requires Reaches(a, Sys(One(started, sh, pc, ag), x))
    requires OwnerEdge(sh, pc, Skip, p) && (pc.Rg? || pc == Bt(BSweep) || pc == Bt(BSwept))
    requires Touches(Sys(One(started, sh, pc, ag), x), Sys(One(started, sh, p, ag), x'), 0, pc, p)
    requires x'.gc == x.gc && x'.found == x.found && x'.other == x.other
    ensures Reaches(a, Sys(One(started, sh, p, ag), x'))
  {
    hide Reaches, OwnerEdge, Touches;
    var c, c' := One(started, sh, pc, ag), One(started, sh, p, ag);
    Updates(c, x.other, c');
    Then(a, Sys(c, x), LThread(0, Skip), Sys(c', x'));
  }

  /** The same steps of the thread that asks. */
  lemma OtherOwn(a: System, c: Cell, sh: Shared, pc: OPc, x: Rest, act: Action, sh': Shared, p: OPc)
    requires Reaches(a, Sys(c, x.(other := Asker(sh, pc))))
    requires OwnerEdge(sh, pc, act, p) && Enabled(sh, Owner, act) && sh' == Do(sh, Owner, act)
    requires !(p.En? && p.e.IntoQueue?) && !pc.Hl? && !pc.Rg? && pc != Bt(BSweep) && pc != Bt(BSwept)
    ensures Reaches(a, Sys(c, x.(other := Asker(sh', p))))
  {
    hide Reaches, OwnerEdge;
    Updates(c, Asker(sh, pc), Asker(sh', p));
    Then(a, Sys(c, x.(other := Asker(sh, pc))), LThread(1, act), Sys(c, x.(other := Asker(sh', p))));
  }

  lemma OtherJoined(a: System, c: Cell, sh: Shared, pc: OPc, x: Rest, p: OPc, x': Rest)
    requires Reaches(a, Sys(c, x)) && x.other == Asker(sh, pc)
    requires x' == x.(other := Asker(sh, p), registry := x'.registry, regHolder := x'.regHolder)
    requires OwnerEdge(sh, pc, Skip, p) && (pc.Rg? || pc == Bt(BSweep) || pc == Bt(BSwept))
    requires Touches(Sys(c, x), Sys(c, x'), 1, pc, p)
    ensures Reaches(a, Sys(c, x'))
  {
    hide Reaches, OwnerEdge, Touches;
    Updates(c, Asker(sh, pc), Asker(sh, p));
    Then(a, Sys(c, x), LThread(1, Skip), Sys(c, x'));
  }

  /** A step of the collector inside a request. */
  lemma Acts(a: System, started: bool, sh: Shared, pc: OPc, j: Job, at: AtPc, x: Rest, act: Action, sh': Shared,
             at': AtPc)
    requires Reaches(a, Sys(One(started, sh, pc, Act(j, at)), x))
    requires AgentEdge(sh, j, at, act, at') && Enabled(sh, Agent(COLLECTOR), act)
    requires sh' == Do(sh, Agent(COLLECTOR), act)
    ensures Reaches(a, Sys(One(started, sh', pc, Act(j, at')), x))
  {
    hide Reaches, AgentEdge;
    var c, c' := One(started, sh, pc, Act(j, at)), One(started, sh', pc, Act(j, at'));
    Updates(c, x.other, c');
    assert [Act(j, at)][COLLECTOR := Act(j, at')] == [Act(j, at')];
    Then(a, Sys(c, x), LAgent(0, COLLECTOR, Step(act, at')), Sys(c', x));
  }

  /** The collector begins or ends a request. */
  lemma Errand(a: System, started: bool, sh: Shared, pc: OPc, ag: APc, x: Rest, ag': APc, x': Rest, ev: AEv, res: Res)
    requires Reaches(a, Sys(One(started, sh, pc, ag), x))
    requires AgentNext(One(started, sh, pc, ag), One(started, sh, pc, ag'), COLLECTOR, ev)
    requires x'.registry == x.registry && x'.regHolder == x.regHolder && x'.other == x.other
    requires match x.gc
             case GcRetain(list, i, kept, n) =>
               && i < |list| && list[i] == 0 && ev == Begin(RetainJob)
               && x'.gc == GcAsk(list, i, kept, n) && x'.found == x.found
             case GcAsk(list, i, kept, n) =>
               && i < |list| && list[i] == 0 && ev == End(RetainJob, res) && x'.found == Told(x.found, 0, res)
               && x'.gc == GcRetain(list, i + 1, if Leaves(res) then kept else kept + [0], n)
             case GcPop(work, n) =>
               work == [0] && ev == Begin(StopJob) && x'.gc == GcBlock([], 0, n) && x'.found == x.found
             case _ => false
    ensures Reaches(a, Sys(One(started, sh, pc, ag'), x'))
  {
    hide Reaches, AgentNext;
    var c, c' := One(started, sh, pc, ag), One(started, sh, pc, ag');
    Updates(c, x.other, c');
    assert [0][..0] == [];
    Then(a, Sys(c, x), LCollector(res), Sys(c', x'));
  }

  // ---------------------------------------------------------------- the thread that asks

  /** Up to the registry. */
  lemma OtherStarted(a: System, c: Cell, x: Rest)
    requires Reaches(a, Sys(c, x.(other := Asker(FreshShared, Unborn)))) && x.regHolder == None
    ensures Reaches(a, Sys(c, x.(other := Asker(AskerShared.(status := InNative), Rg(true, GQueued)))))
  {
    hide Reaches;
    var u, m := Asker(FreshShared, Unborn), AskerShared;
    var b := Asker(m, Bt(BEnable));
    var y := x.(other := Asker(m, Bt(BSweep)));
    var z := x.(other := Asker(m, Bt(BSwept)), regHolder := Some(RegThread(1)));
    Updates(c, u, b);
    Then(a, Sys(c, x.(other := u)), LBirth(1), Sys(c, x.(other := b)));
    OtherOwn(a, c, m, Bt(BEnable), x, Skip, m, Bt(BSweep));
    OtherJoined(a, c, m, Bt(BSweep), y, Bt(BSwept), z);
    OtherJoined(a, c, m, Bt(BSwept), z, Bt(BPark), x.(other := Asker(m, Bt(BPark))));
    OtherParked(a, c, x);
  }

  lemma OtherParked(a: System, c: Cell, x: Rest)
    requires Reaches(a, Sys(c, x.(other := Asker(AskerShared, Bt(BPark)))))
    ensures Reaches(a, Sys(c, x.(other := Asker(AskerShared.(status := InNative), Rg(true, GQueued)))))
  {
    hide Reaches;
    var m := AskerShared;
    OtherOwn(a, c, m, Bt(BPark), x, Skip, m, En(IntoRegistry, NLoad));
    OtherOwn(a, c, m, En(IntoRegistry, NLoad), x, Skip, m, En(IntoRegistry, NCas));
    OtherOwn(a, c, m, En(IntoRegistry, NCas), x, StoreStatus(InNative), m.(status := InNative), Rg(true, GQueued));
  }

  lemma OtherRegistered(a: System, c: Cell, x: Rest)
    requires Reaches(a, Sys(c, x.(other := Asker(FreshShared, Unborn)))) && x.regHolder == None
    ensures Reaches(a, Sys(c, x.(other := Asker(AskerShared, Run), registry := x.registry + [1])))
  {
    hide Reaches;
    var n := AskerShared.(status := InNative);
    var y := x.(other := Asker(n, Rg(true, GQueued)));
    var z := y.(other := Asker(n, Rg(true, GPush)), regHolder := Some(RegThread(1)));
    var w := z.(other := Asker(n, Rg(true, GUnlock)), registry := x.registry + [1]);
    var v := x.(registry := x.registry + [1]);
    OtherStarted(a, c, x);
    OtherJoined(a, c, n, Rg(true, GQueued), y, Rg(true, GPush), z);
    OtherJoined(a, c, n, Rg(true, GPush), z, Rg(true, GUnlock), w);
    OtherLeft(a, c, v);
  }

  lemma OtherLeft(a: System, c: Cell, v: Rest)
    requires v.regHolder == None
    requires Reaches(a, Sys(c, v.(other := Asker(AskerShared.(status := InNative), Rg(true, GUnlock)),
                               regHolder := Some(RegThread(1)))))
    ensures Reaches(a, Sys(c, v.(other := Asker(AskerShared, Run))))
  {
    hide Reaches;
    var n := AskerShared.(status := InNative);
    var w := v.(other := Asker(n, Rg(true, GUnlock)), regHolder := Some(RegThread(1)));
    OtherJoined(a, c, n, Rg(true, GUnlock), w, Ln(IntoManaged, LLoad), v.(other := Asker(n, Ln(IntoManaged, LLoad))));
    OtherOwn(a, c, n, Ln(IntoManaged, LLoad), v, Skip, n, Ln(IntoManaged, LCas));
    OtherOwn(a, c, n, Ln(IntoManaged, LCas), v, StoreStatus(InManaged), AskerShared, Run);
  }

  lemma AskerFirst(a: System, c: Cell)
    requires a == Sys(c, Empty)
    ensures Reaches(a, Sys(c, Ready([1])))
  {
    hide Reaches;
    Here(a);
    OtherRegistered(a, c, Empty);
    assert Empty.registry + [1] == [1];
  }

  // ---------------------------------------------------------------- the thread

  /** `enable_yieldpoints` in `startoff` and `register_mutator_manual`. */
  lemma Started(a: System, started: bool, sh: Shared, x: Rest)
    requires Reaches(a, Sys(One(started, sh, Bt(BEnable), Idle), x)) && sh.count == 0 && !sh.pending
    ensures Reaches(a, Sys(One(started, sh.(count := 1), Bt(BSweep), Idle), x))
  {
    hide Reaches;
    var t := sh.(count := 1);
    Own(a, started, sh, Bt(BEnable), Idle, x, Skip, sh, Ey(true, EAdd));
    Own(a, started, sh, Ey(true, EAdd), Idle, x, AddCount(1), t, Ey(true, ETest));
    Own(a, started, t, Ey(true, ETest), Idle, x, Skip, t, Ey(true, EPending));
    Own(a, started, t, Ey(true, EPending), Idle, x, Skip, t, Bt(BSweep));
  }

  lemma Swept(a: System, started: bool, sh: Shared, x: Rest)
    requires Reaches(a, Sys(One(started, sh, Bt(BSweep), Idle), x)) && x.regHolder == None
    ensures Reaches(a, Sys(One(started, sh, Bt(BPark), Idle), x))
  {
    hide Reaches;
    var y := x.(regHolder := Some(RegThread(0)));
    Joined(a, started, sh, Bt(BSweep), Idle, x, Bt(BSwept), y);
    Joined(a, started, sh, Bt(BSwept), Idle, y, Bt(BPark), x);
  }

  /** The registration itself. */
  lemma Pushed(a: System, started: bool, sh: Shared, native: bool)
    requires Reaches(a, Sys(One(started, sh, Rg(native, GQueued), Idle), Ready([1])))
    ensures Reaches(a, Sys(One(started, sh, AfterPush(native), Idle), Ready([1, 0])))
  {
    hide Reaches, AfterPush;
    var x := Ready([1]);
    var y := x.(regHolder := Some(RegThread(0)));
    assert [1] + [0] == [1, 0];
    Joined(a, started, sh, Rg(native, GQueued), Idle, x, Rg(native, GPush), y);
    Joined(a, started, sh, Rg(native, GPush), Idle, y, Rg(native, GUnlock), y.(registry := [1, 0]));
    Unlocked(a, started, sh, native, Ready([1, 0]));
  }

  function AfterPush(native: bool): OPc {
    if native then Ln(IntoManaged, LLoad) else Run
  }

  lemma Unlocked(a: System, started: bool, sh: Shared, native: bool, x: Rest)
    requires Reaches(a, Sys(One(started, sh, Rg(native, GUnlock), Idle), x.(regHolder := Some(RegThread(0)))))
    requires x.regHolder == None
    ensures Reaches(a, Sys(One(started, sh, AfterPush(native), Idle), x))
  {
    hide Reaches;
    Joined(a, started, sh, Rg(native, GUnlock), Idle, x.(regHolder := Some(RegThread(0))), AfterPush(native), x);
  }

  /** `register_mutator_manual`. */
  lemma RegisteredNew(a: System)
    requires a == Sys(One(false, FreshShared, Unborn, Idle), Empty)
    ensures Reaches(a, Sys(One(false, FreshShared.(count := 1), Run, Idle), Ready([1, 0])))
  {
    hide Reaches;
    var x := Ready([1]);
    var c, b := One(false, FreshShared, Unborn, Idle), One(false, FreshShared, Bt(BEnable), Idle);
    var t := FreshShared.(count := 1);
    Updates(c, x.other, b);
    AskerFirst(a, c);
    Then(a, Sys(c, x), LBirth(0), Sys(b, x));
    Started(a, false, FreshShared, x);
    Swept(a, false, t, x);
    Own(a, false, t, Bt(BPark), Idle, x, Skip, t, Rg(false, GQueued));
    Pushed(a, false, t, false);
  }

  const ManagedShared: Shared := FreshShared.(status := InManaged, count := 1)

  /** The parked scope of `add_thread`. */
  lemma EnteredRegistry(a: System, x: Rest)
    requires Reaches(a, Sys(One(true, ManagedShared, Bt(BPark), Idle), x))
    ensures Reaches(a, Sys(One(true, ManagedShared.(status := InNative), Rg(true, GQueued), Idle), x))
  {
    hide Reaches;
    var m := ManagedShared;
    Own(a, true, m, Bt(BPark), Idle, x, Skip, m, En(IntoRegistry, NLoad));
    Own(a, true, m, En(IntoRegistry, NLoad), Idle, x, Skip, m, En(IntoRegistry, NCas));
    Own(a, true, m, En(IntoRegistry, NCas), Idle, x, StoreStatus(InNative), m.(status := InNative), Rg(true, GQueued));
  }

  lemma LeftRegistry(a: System, x: Rest)
    requires Reaches(a, Sys(One(true, ManagedShared.(status := InNative), Ln(IntoManaged, LLoad), Idle), x))
    ensures Reaches(a, Sys(One(true, ManagedShared, Run, Idle), x))
  {
    hide Reaches;
    var n := ManagedShared.(status := InNative);
    Own(a, true, n, Ln(IntoManaged, LLoad), Idle, x, Skip, n, Ln(IntoManaged, LCas));
    Own(a, true, n, Ln(IntoManaged, LCas), Idle, x, StoreStatus(InManaged), ManagedShared, Run);
  }

  /** `start`. */
  lemma RegisteredManaged(a: System)
    requires a == Sys(One(true, FreshShared, Unborn, Idle), Empty)
    ensures Reaches(a, Sys(One(true, ManagedShared, Run, Idle), Ready([1, 0])))
  {
    hide Reaches;
    var x := Ready([1]);
    var sh := FreshShared.(status := InManaged);
    var c, b := One(true, FreshShared, Unborn, Idle), One(true, sh, Bt(BEnable), Idle);
    Updates(c, x.other, b);
    AskerFirst(a, c);
    Then(a, Sys(c, x), LBirth(0), Sys(b, x));
    Started(a, true, sh, x);
    Swept(a, true, ManagedShared, x);
    EnteredRegistry(a, x);
    Pushed(a, true, ManagedShared.(status := InNative), true);
    LeftRegistry(a, Ready([1, 0]));
  }

  /** `main`, up to the registry, and then the thread that asks. */
  lemma MainQueued(a: System)
    requires a == Sys(One(true, FreshShared, Unborn, Idle), Empty)
    ensures Reaches(a, Sys(One(true, ManagedShared, Bt(BSweep), Idle), Ready([0, 1])))
  {
    hide Reaches;
    var x := Empty.(registry := [0]);
    var sh := FreshShared.(status := InManaged);
    var c, b := One(true, FreshShared, Unborn, Idle), One(true, sh, Bt(BEnable), Idle);
    Updates(c, x.other, b);
    Here(a);
    Then(a, a, LMain(0), Sys(b, x));
    Started(a, true, sh, x);
    OtherRegistered(a, One(true, ManagedShared, Bt(BSweep), Idle), x);
    assert [0] + [1] == [0, 1];
  }

  // ---------------------------------------------------------------- the collector

  /** The collector's request to a thread that is free to be asked, up to its notification. */
  lemma Requested(a: System, started: bool, sh: Shared, pc: OPc, j: Job, x: Rest)
    requires j.kind != Unblock && j.ad == GC && j.nested && Reaches(a, Sys(One(started, sh, pc, Act(j, Outer)), x))
    requires |sh.req| == 1 && sh.blk == [false] && !sh.about && sh.holder == None && sh.depth == 0
    ensures var st := BlockTarget(sh.status);
            var held := sh.(req := [true], take := 1, status := st, holder := Some(Agent(COLLECTOR)), depth := 2);
            Reaches(a, Sys(One(started, held, pc, Act(j, Notify(st))), x))
  {
    hide Reaches;
    var s2 := sh.(holder := Some(Agent(COLLECTOR)), depth := 2);
    assert sh.req[0 := true] == [true];
    Admitted(a, started, sh, pc, j, x);
    Acts(a, started, s2, pc, j, Req, x, StoreReq(GC, true), s2.(req := [true]), About);
    Placed(a, started, s2.(req := [true]), pc, j, x);
  }

  /** Into the monitor, twice. */
  lemma Admitted(a: System, started: bool, sh: Shared, pc: OPc, j: Job, x: Rest)
    requires j.kind != Unblock && j.ad == GC && j.nested && Reaches(a, Sys(One(started, sh, pc, Act(j, Outer)), x))
    requires sh.blk == [false] && sh.holder == None && sh.depth == 0
    ensures Reaches(a, Sys(One(started, sh.(holder := Some(Agent(COLLECTOR)), depth := 2), pc, Act(j, Req)), x))
  {
    hide Reaches;
    var s1 := sh.(holder := Some(Agent(COLLECTOR)), depth := 1);
    Acts(a, started, sh, pc, j, Outer, x, Acquire, s1, if j.test then Test else Inner);
    if j.test { Acts(a, started, s1, pc, j, Test, x, Skip, s1, Inner); }
    Acts(a, started, s1, pc, j, Inner, x, Acquire, s1.(depth := 2), Req);
  }

  lemma Placed(a: System, started: bool, s3: Shared, pc: OPc, j: Job, x: Rest)
    requires j.kind != Unblock && Reaches(a, Sys(One(started, s3, pc, Act(j, About)), x)) && !s3.about
    ensures var st := BlockTarget(s3.status);
            Reaches(a, Sys(One(started, s3.(take := 1, status := st), pc, Act(j, Notify(st))), x))
  {
    hide Reaches;
    var s4, st := s3.(take := 1), BlockTarget(s3.status);
    Acts(a, started, s3, pc, j, About, x, Skip, s3, Take);
    Acts(a, started, s3, pc, j, Take, x, StoreTake(1), s4, Load);
    Acts(a, started, s4, pc, j, Load, x, Skip, s4, Cas(s3.status));
    Acts(a, started, s4, pc, j, Cas(s3.status), x, StoreStatus(st), s4.(status := st), Notify(st));
  }

  predicate CanBeAsked(sh: Shared, pc: OPc) {
    && sh.req == [false] && sh.blk == [false] && !sh.about && sh.holder == None && sh.depth == 0 && sh.asleep == {}
    && (sh.status == New || sh.status == InManaged) && pc != Unborn
  }

  function Marked(sh: Shared): Shared {
    sh.(req := [true], take := 1, status := BlockTarget(sh.status))
  }

  /** The registry holds the two threads, in either order. */
  predicate Both(registry: seq<nat>) {
    registry == [1, 0] || registry == [0, 1]
  }

  /** The collector in the midst of a pass. */
  function Passing(registry: seq<nat>, gc: GcPc, f: Found): Rest {
    Ready(registry).(regHolder := Some(RegCollector), gc := gc, found := f)
  }

  /** A first pass. */
  lemma Asked(a: System, started: bool, sh: Shared, pc: OPc, g: seq<nat>)
    requires Reaches(a, Sys(One(started, sh, pc, Idle), Ready(g))) && CanBeAsked(sh, pc) && Both(g)
    ensures var res := State(BlockTarget(sh.status));
            Reaches(a, Sys(One(started, Marked(sh), pc, Idle),
                           Passing(g, GcTest(if Leaves(res) then [] else [0], 0), Told(Nobody, 0, res))))
  {
    hide Reaches;
    var y := Passing(g, GcAsk([0], 0, [], 0), Nobody);
    PassBegun(a, started, sh, pc, g);
    Requested(a, started, sh, pc, RetainJob, y);
    Answered(a, started, sh, pc, y);
    PassDone(a, started, Marked(sh), pc, g, State(BlockTarget(sh.status)));
  }

  lemma PassBegun(a: System, started: bool, sh: Shared, pc: OPc, g: seq<nat>)
    requires Reaches(a, Sys(One(started, sh, pc, Idle), Ready(g))) && pc != Unborn && |sh.req| == 1 && Both(g)
    ensures Reaches(a, Sys(One(started, sh, pc, Act(RetainJob, Outer)), Passing(g, GcAsk([0], 0, [], 0), Nobody)))
  {
    hide Reaches;
    Snapped(a, One(started, sh, pc, Idle), g);
    Errand(a, started, sh, pc, Idle, Passing(g, GcRetain([0], 0, [], 0), Nobody), Act(RetainJob, Outer),
           Passing(g, GcAsk([0], 0, [], 0), Nobody), Begin(RetainJob), Unit);
  }

  lemma Snapped(a: System, c: Cell, g: seq<nat>)
    requires Reaches(a, Sys(c, Ready(g))) && IsMutator(c) && Both(g)
    ensures Reaches(a, Sys(c, Passing(g, GcRetain([0], 0, [], 0), Nobody)))
  {
    hide Reaches, Select;
    var o := Ready(g);
    Then(a, Sys(c, o), LCollector(Unit), Sys(c, o.(gc := GcLock(0))));
    Then(a, Sys(c, o.(gc := GcLock(0))), LCollector(Unit), Sys(c, Passing(g, GcSnap(0), Nobody)));
    MutatorSelected(c, o.other, g);
    Then(a, Sys(c, Passing(g, GcSnap(0), Nobody)), LCollector(Unit),
         Sys(c, Passing(g, GcRetain([0], 0, [], 0), Nobody)));
  }

  lemma MutatorSelected(c: Cell, d: Cell, g: seq<nat>)
    requires IsMutator(c) && !IsMutator(d) && Both(g)
    ensures Select(g, [c, d], IsMutator) == [0]
  {
    assert [1, 0][..1] == [1] && [0, 1][..1] == [0] && [1][..0] == [] && [0][..0] == [];
    assert Select([1], [c, d], IsMutator) == [] && Select([0], [c, d], IsMutator) == [0];
  }

  lemma Answered(a: System, started: bool, sh: Shared, pc: OPc, y: Rest)
    requires CanBeAsked(sh, pc)
    requires var st := BlockTarget(sh.status);
             var held := sh.(req := [true], take := 1, status := st, holder := Some(Agent(COLLECTOR)), depth := 2);
             Reaches(a, Sys(One(started, held, pc, Act(RetainJob, Notify(st))), y))
    ensures Reaches(a, Sys(One(started, Marked(sh), pc, Act(RetainJob, Done(State(BlockTarget(sh.status))))), y))
  {
    hide Reaches;
    var st, m := BlockTarget(sh.status), Marked(sh);
    var s2 := m.(holder := Some(Agent(COLLECTOR)), depth := 2);
    Acts(a, started, s2, pc, RetainJob, Notify(st), y, Broadcast, s2, InnerUnlock(State(st)));
    Acts(a, started, s2, pc, RetainJob, InnerUnlock(State(st)), y, Release, s2.(depth := 1), OuterUnlock(State(st)));
    Acts(a, started, s2.(depth := 1), pc, RetainJob, OuterUnlock(State(st)), y, Release, m, Done(State(st)));
  }

  lemma PassDone(a: System, started: bool, m: Shared, pc: OPc, g: seq<nat>, res: Res)
    requires Reaches(a, Sys(One(started, m, pc, Act(RetainJob, Done(res))), Passing(g, GcAsk([0], 0, [], 0), Nobody)))
    requires |m.req| == 1
    ensures Reaches(a, Sys(One(started, m, pc, Idle),
                        Passing(g, GcTest(if Leaves(res) then [] else [0], 0), Told(Nobody, 0, res))))
  {
    hide Reaches;
    var kept, f := if Leaves(res) then [] else [0], Told(Nobody, 0, res);
    var z := Passing(g, GcRetain([0], 1, kept, 0), f);
    assert [] + [0] == [0];
    Errand(a, started, m, pc, Act(RetainJob, Done(res)), Passing(g, GcAsk([0], 0, [], 0), Nobody), Idle, z,
           End(RetainJob, res), res);
    PassTested(a, One(started, m, pc, Idle), g, kept, f);
  }

  lemma PassTested(a: System, c: Cell, g: seq<nat>, kept: seq<nat>, f: Found)
    requires Reaches(a, Sys(c, Passing(g, GcRetain([0], 1, kept, 0), f)))
    ensures Reaches(a, Sys(c, Passing(g, GcTest(kept, 0), f)))
  {
    hide Reaches;
    Then(a, Sys(c, Passing(g, GcRetain([0], 1, kept, 0), f)), LCollector(Unit), Sys(c, Passing(g, GcTest(kept, 0), f)));
  }

  /** The worklist is empty: on to the final list. */
  lemma Returned(a: System, c: Cell, f: Found)
    requires Reaches(a, Sys(c, Passing([1, 0], GcTest([], 0), f))) && c.sh.blk == [false]
    ensures Reaches(a, Sys(c, Passing([1, 0], GcStopped(2, []), f).(regHolder := None)))
  {
    hide Reaches;
    var g := [1, 0];
    var r := Passing(g, GcRelock(2), f).(regHolder := None);
    Then(a, Sys(c, Passing(g, GcTest([], 0), f)), LCollector(Unit), Sys(c, r));
    Then(a, Sys(c, r), LCollector(Unit), Sys(c, Passing(g, GcFilter(2, 0, []), f)));
    Filtered(a, c, f, 0);
    Filtered(a, c, f, 1);
    Listed(a, c, f);
  }

  lemma Filtered(a: System, c: Cell, f: Found, i: nat)
    requires i < 2 && Reaches(a, Sys(c, Passing([1, 0], GcFilter(2, i, []), f))) && c.sh.blk == [false]
    ensures Reaches(a, Sys(c, Passing([1, 0], GcFilter(2, i + 1, []), f)))
  {
    hide Reaches;
    Then(a, Sys(c, Passing([1, 0], GcFilter(2, i, []), f)), LCollector(Unit),
         Sys(c, Passing([1, 0], GcFilter(2, i + 1, []), f)));
  }

  lemma Listed(a: System, c: Cell, f: Found)
    requires Reaches(a, Sys(c, Passing([1, 0], GcFilter(2, 2, []), f)))
    ensures Reaches(a, Sys(c, Passing([1, 0], GcStopped(2, []), f).(regHolder := None)))
  {
    hide Reaches;
    Then(a, Sys(c, Passing([1, 0], GcFilter(2, 2, []), f)), LCollector(Unit),
         Sys(c, Passing([1, 0], GcStopped(2, []), f).(regHolder := None)));
  }

  /** The thread was kept: the collector asks it again and goes to sleep. */
  lemma Waits(a: System, sh: Shared, pc: OPc, g: seq<nat>, f: Found)
    requires Reaches(a, Sys(One(true, sh, pc, Idle), Passing(g, GcTest([0], 0), f))) && pc != Unborn
    requires sh.req == [true] && sh.blk == [false] && sh.status == InManagedToBlock && sh.take == 1
    requires !sh.about && sh.holder == None && sh.depth == 0 && sh.asleep == {}
    ensures Reaches(a, Sys(One(true, sh.(asleep := {Agent(COLLECTOR)}), pc, Act(StopJob, Sleep)),
                        Passing(g, GcBlock([], 0, 0), f)))
  {
    hide Reaches;
    var c := One(true, sh, pc, Idle);
    var x, y := Passing(g, GcPop([0], 0), f), Passing(g, GcBlock([], 0, 0), f);
    var s2 := sh.(holder := Some(Agent(COLLECTOR)), depth := 2);
    Then(a, Sys(c, Passing(g, GcTest([0], 0), f)), LCollector(Unit), Sys(c, x));
    Errand(a, true, sh, pc, Idle, x, Act(StopJob, Outer), y, Begin(StopJob), Unit);
    Requested(a, true, sh, pc, StopJob, y);
    Acts(a, true, s2, pc, StopJob, Notify(InManagedToBlock), y, Broadcast, s2, Check);
    Acts(a, true, s2, pc, StopJob, Check, y, WaitOn, sh.(asleep := {Agent(COLLECTOR)}), Sleep);
  }

  // ---------------------------------------------------------------- the three runs

  /** The world is stopped, and a mutator of the snapshot, `New` since `register_mutator_manual`, goes
      on executing managed code. */
  lemma NewMutatorEscapes() returns (run: seq<System>, labels: seq<Label>)
    ensures IsRun(run, labels)
    ensures var s := run[|labels|];
            && s.gc == GcStopped(2, []) && s.registry == [1, 0] && |s.cells| == 2 && s.found.last == {0}
            && IsMutator(s.cells[0]) && s.cells[0].pc == Run && Executing(s.cells[0].pc) && !StoppedForGc(s.cells[0].sh)
            && s.cells[1].ignoring && s.cells[1].pc == Run
  {
    hide Reaches, Next, Init;
    var a := Sys(One(false, FreshShared, Unborn, Idle), Empty);
    var sh, f := FreshShared.(count := 1), Told(Nobody, 0, State(New));
    StartsHere(false);
    RegisteredNew(a);
    Asked(a, false, sh, Run, [1, 0]);
    Returned(a, One(false, Marked(sh), Run, Idle), f);
    var s := Sys(One(false, Marked(sh), Run, Idle), Passing([1, 0], GcStopped(2, []), f).(regHolder := None));
    assert s.cells[0] == One(false, Marked(sh), Run, Idle) && s.cells[1] == Asker(AskerShared, Run);
    run, labels := AsRun(a, s);
  }

  /** `enable_yieldpoints` a second time, a yieldpoint, which is deferred, and `disable_yieldpoints`. */
  lemma TwiceEnabled(a: System, sh: Shared, ag: APc, x: Rest)
    requires Reaches(a, Sys(One(true, sh, Run, ag), x)) && sh.count == 1
    ensures Reaches(a, Sys(One(true, sh.(pending := true, take := 0), Run, ag), x))
  {
    hide Reaches;
    var t := sh.(count := 2);
    var u := t.(pending := true);
    var v := u.(take := 0);
    Own(a, true, sh, Run, ag, x, Skip, sh, Ey(false, EAdd));
    Own(a, true, sh, Ey(false, EAdd), ag, x, AddCount(1), t, Ey(false, ETest));
    Own(a, true, t, Ey(false, ETest), ag, x, Skip, t, Run);
    Own(a, true, t, Run, ag, x, Skip, t, Yp(YEnter));
    Own(a, true, t, Yp(YEnter), ag, x, Skip, t, Yp(YDeferPending));
    Own(a, true, t, Yp(YDeferPending), ag, x, StorePending(true), u, Yp(YDeferClear));
    Own(a, true, u, Yp(YDeferClear), ag, x, StoreTake(0), v, Run);
    Own(a, true, v, Run, ag, x, AddCount(-1), v.(count := 1), Run);
  }

  /** The collector sleeps, waiting for a thread whose yieldpoints are enabled and not taken. */
  lemma EnablingTwiceLosesRequest() returns (run: seq<System>, labels: seq<Label>)
    ensures IsRun(run, labels)
    ensures var s := run[|labels|];
            && |s.cells| == 2 && s.cells[0].started && s.cells[0].pc == Run
            && s.cells[0].sh.count == 1 && s.cells[0].sh.take == 0 && s.cells[0].sh.pending
              && s.cells[0].sh.req == [true]
            && s.gc == GcBlock([], 0, 0) && Agent(COLLECTOR) in s.cells[0].sh.asleep
  {
    hide Reaches, Next, Init;
    var a := Sys(One(true, FreshShared, Unborn, Idle), Empty);
    var g, m, f := [1, 0], Marked(ManagedShared), Told(Nobody, 0, State(InManagedToBlock));
    var s := m.(asleep := {Agent(COLLECTOR)});
    StartsHere(true);
    RegisteredManaged(a);
    Asked(a, true, ManagedShared, Run, g);
    Waits(a, m, Run, g, f);
    TwiceEnabled(a, s, Act(StopJob, Sleep), Passing(g, GcBlock([], 0, 0), f));
    run, labels := AsRun(a, Sys(One(true, s.(pending := true, take := 0), Run, Act(StopJob, Sleep)),
                             Passing(g, GcBlock([], 0, 0), f)));
  }

  /** `main` waits for the registry, and the collector, which holds it, for `main`. */
  lemma MainAndCollectorDeadlock() returns (run: seq<System>, labels: seq<Label>)
    ensures IsRun(run, labels)
    ensures var s := run[|labels|];
            && |s.cells| == 2 && s.registry == [0, 1] && s.gc == GcBlock([], 0, 0) && RegistryDeadlock(s)
            && s.cells[1].ignoring && s.cells[1].pc == Run
  {
    hide Reaches, Next, Init;
    var a := Sys(One(true, FreshShared, Unborn, Idle), Empty);
    var g, m, f := [0, 1], Marked(ManagedShared), Told(Nobody, 0, State(InManagedToBlock));
    StartsHere(true);
    MainQueued(a);
    Asked(a, true, ManagedShared, Bt(BSweep), g);
    Waits(a, m, Bt(BSweep), g, f);
    run, labels := AsRun(a, Sys(One(true, m.(asleep := {Agent(COLLECTOR)}), Bt(BSweep), Act(StopJob, Sleep)),
                             Passing(g, GcBlock([], 0, 0), f)));
  }
}

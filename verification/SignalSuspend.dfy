/** Suspending and resuming threads by signal: a requester and the signal handlers of any number of
    threads share one semaphore, one global target pointer and a nesting count per thread.  A thread
    also stores its stack pointer by itself, where it enters native code or blocks. */
module SignalSuspend {
  import opened Options

  /** Inside `signal_handler_suspend_resume`; `r` is what was read from the target pointer. */
  datatype HPc =
    | HIdle                                       // the thread runs, the signal can be delivered
    | HEnter | HCheck(r: Option<nat>) | HWhere(x: nat)
    | HAltStore(x: nat) | HAltPost                // on an alternative signal stack: back off
    | HStore(x: nat) | HPost | HCommit | HSleep   // HSleep: in sigsuspend
    | HNest | HNestCheck(r: Option<nat>)          // the handler again, nested in sigsuspend
    | HWake | HClear(r: Option<nat>) | HDone
    | HReturn
    | HLost                                       // the target pointer was null, or a nested call went on to suspend

  datatype Th = Th(pending: bool, count: nat, sp: bool, hp: HPc)

  /** The requester; it holds the suspend locker in every state but `RFree`. */
  datatype RPc =
    | RFree | RHeld
    | SLoad(t: nat) | STarget(t: nat) | SKill(t: nat) | SWait(t: nat) | SCheck(t: nat) | SAdd(t: nat)
    | RLoad(t: nat) | RTarget(t: nat) | RKill(t: nat) | RWait(t: nat) | RSub(t: nat)

  datatype State = State(sem: nat, target: Option<nat>, th: seq<Th>, rp: RPc)

  function Upd(s: State, t: nat, h: Th): State
    requires t < |s.th|
  {
    s.(th := s.th[t := h])
  }

  // ---------------------------------------------------------------- steps

  /** One step of thread `t` in the handler, or the delivery of its signal. */
  predicate HandlerStep(s: State, s': State, t: nat) {
    && t < |s.th|
    && var h := s.th[t];
       match h.hp
       case HIdle => h.pending && s' == Upd(s, t, h.(pending := false, hp := HEnter))
       case HEnter => s' == Upd(s, t, h.(hp := HCheck(s.target)))
       case HCheck(x) =>
         if x == None || x.value >= |s.th| then s' == Upd(s, t, h.(hp := HLost))
         else s' == Upd(s, t, h.(hp := if s.th[x.value].count != 0 then HReturn else HWhere(x.value)))
       case HWhere(x) => s' == Upd(s, t, h.(hp := HAltStore(x))) || s' == Upd(s, t, h.(hp := HStore(x)))
       case HAltStore(x) =>
         && x < |s.th|
         && var r := Upd(s, x, s.th[x].(sp := false));
            s' == Upd(r, t, r.th[t].(hp := HAltPost))
       case HAltPost => s' == Upd(s, t, h.(hp := HReturn)).(sem := s.sem + 1)
       case HStore(x) =>
         && x < |s.th|
         && var r := Upd(s, x, s.th[x].(sp := true));
            s' == Upd(r, t, r.th[t].(hp := HPost))
       case HPost => s' == Upd(s, t, h.(hp := HCommit)).(sem := s.sem + 1)
       case HCommit => s' == Upd(s, t, h.(hp := HSleep))
       case HSleep => h.pending && s' == Upd(s, t, h.(pending := false, hp := HNest))
       case HNest => s' == Upd(s, t, h.(hp := HNestCheck(s.target)))
       case HNestCheck(x) =>
         if x == None || x.value >= |s.th| || s.th[x.value].count == 0 then s' == Upd(s, t, h.(hp := HLost))
         else s' == Upd(s, t, h.(hp := HWake))
       case HWake => s' == Upd(s, t, h.(hp := HClear(s.target)))
       case HClear(x) =>
         if x == None || x.value >= |s.th| then s' == Upd(s, t, h.(hp := HLost))
         else
           var r := Upd(s, x.value, s.th[x.value].(sp := false));
           s' == Upd(r, t, r.th[t].(hp := HDone))
       case HDone => s' == Upd(s, t, h.(hp := HReturn)).(sem := s.sem + 1)
       case HReturn => s' == Upd(s, t, h.(hp := HIdle))
       case HLost => false
  }

  /** `check_block`, `save_registers` and `enter_native` store the stack pointer of a running thread. */
  predicate OwnStore(s: State, s': State, t: nat) {
    t < |s.th| && s.th[t].hp == HIdle && s' == Upd(s, t, s.th[t].(sp := true))
  }

  /** One step of the requester; calls are balanced, and their targets alive. */
  predicate RequesterStep(s: State, s': State) {
    match s.rp
    case RFree => s' == s.(rp := RHeld)
    case RHeld =>
      || s' == s.(rp := RFree)
      || (s'.rp.SLoad? && s'.rp.t < |s.th| && s' == s.(rp := s'.rp))
      || (s'.rp.RLoad? && s'.rp.t < |s.th| && s.th[s'.rp.t].count > 0 && s' == s.(rp := s'.rp))
    // suspend
    case SLoad(t) => t < |s.th| && s' == s.(rp := if s.th[t].count == 0 then STarget(t) else SAdd(t))
    case STarget(t) => s' == s.(target := Some(t), rp := SKill(t))
    case SKill(t) => t < |s.th| && s' == Upd(s, t, s.th[t].(pending := true)).(rp := SWait(t))
    case SWait(t) => s.sem > 0 && s' == s.(sem := s.sem - 1, rp := SCheck(t))
    case SCheck(t) => t < |s.th| && s' == s.(rp := if s.th[t].sp then SAdd(t) else SKill(t))
    case SAdd(t) => t < |s.th| && s' == Upd(s, t, s.th[t].(count := s.th[t].count + 1)).(rp := RHeld)
    // resume
    case RLoad(t) => t < |s.th| && s' == s.(rp := if s.th[t].count == 1 then RTarget(t) else RSub(t))
    case RTarget(t) => s' == s.(target := Some(t), rp := RKill(t))
    case RKill(t) => t < |s.th| && s' == Upd(s, t, s.th[t].(pending := true)).(rp := RWait(t))
    case RWait(t) => s.sem > 0 && s' == s.(sem := s.sem - 1, rp := RSub(t))
    case RSub(t) =>
      && t < |s.th| && s.th[t].count > 0
      && s' == Upd(s, t, s.th[t].(count := s.th[t].count - 1)).(rp := RHeld)
  }

  datatype Actor = Handler(t: nat) | Own(t: nat) | Requester

  predicate Step(s: State, s': State, a: Actor) {
    match a
    case Handler(t) => HandlerStep(s, s', t)
    case Own(t) => OwnStore(s, s', t)
    case Requester => RequesterStep(s, s')
  }

  predicate Start(s: State) {
    && s.sem == 0 && s.rp == RFree
    && forall t :: 0 <= t < |s.th| ==> s.th[t] == Th(false, 0, false, HIdle)
  }

  predicate IsRun(run: seq<State>, who: seq<Actor>) {
    && |run| == |who| + 1 && Start(run[0])
    && forall i :: 0 <= i < |who| ==> Step(run[i], run[i + 1], who[i])
  }

  // ---------------------------------------------------------------- what every run keeps

  /** Stopped in the handler: in `sigsuspend`, or past the post that announces it. */
  predicate Stopped(h: HPc) {
    h == HCommit || h == HSleep
  }

  predicate Running(h: HPc) {
    h == HIdle || h == HReturn
  }

  /** Between two signals.  Only a thread with a positive count is stopped. */
  predicate Settled(h: Th) {
    && (Running(h.hp) || (Stopped(h.hp) && h.sp))
    && (h.count == 0 ==> Running(h.hp))
  }

  predicate Quiet(h: Th) {
    !h.pending && Settled(h)
  }

  /** Thread `t` on its way to being suspended: its signal is pending, its handler has not posted
      yet, or its one token is in the semaphore. */
  predicate BeingSuspended(s: State, t: nat, h: Th) {
    && h.count == 0
    && (|| (h.pending && Running(h.hp) && s.sem == 0)
        || (!h.pending && s.sem == 0
            && (h.hp == HEnter || h.hp == HCheck(Some(t)) || h.hp == HWhere(t) || h.hp == HAltStore(t)
                || h.hp == HStore(t)
                || (h.hp == HAltPost && !h.sp) || (h.hp == HPost && h.sp)))
        || (!h.pending && s.sem == 1 && Answering(h)))
  }

  /** The handler has posted, and is in `sigsuspend` or has backed off. */
  predicate Answering(h: Th) {
    Running(h.hp) || (Stopped(h.hp) && h.sp)
  }

  /** Thread `t` on its way to being resumed; a thread that was never stopped returns from its
      handler without posting. */
  predicate BeingResumed(s: State, t: nat, h: Th) {
    && h.count == 1
    && (|| (h.pending && s.sem == 0 && (Stopped(h.hp) || Running(h.hp)))
        || (!h.pending && s.sem == 0
            && (h.hp == HNest || h.hp == HNestCheck(Some(t)) || h.hp == HWake || h.hp == HClear(Some(t))
                || h.hp == HDone
                || h.hp == HEnter || h.hp == HCheck(Some(t)) || Running(h.hp)))
        || (!h.pending && s.sem == 1 && Running(h.hp)))
  }

  predicate ThInv(s: State, t: nat, h: Th) {
    match s.rp
    case SKill(a) => if t == a then s.sem == 0 && h.count == 0 && !h.pending && Running(h.hp) else Quiet(h)
    case SWait(a) => if t == a then BeingSuspended(s, t, h) else Quiet(h)
    case SCheck(a) => if t == a then s.sem == 0 && h.count == 0 && !h.pending && Answering(h) else Quiet(h)
    case SAdd(a) => if t == a then s.sem == 0 && !h.pending && Answering(h) else Quiet(h)
    case RWait(a) => if t == a then BeingResumed(s, t, h) else Quiet(h)
    case RSub(a) =>
      if t == a then s.sem == 0 && h.count > 0 && !h.pending && Answering(h) && (h.count == 1 ==> Running(h.hp))
      else Quiet(h)
    case STarget(a) => Quiet(h) && (t == a ==> h.count == 0)
    case RTarget(a) => Quiet(h) && (t == a ==> h.count == 1)
    case RKill(a) => Quiet(h) && (t == a ==> h.count == 1)
    case RLoad(a) => Quiet(h) && (t == a ==> h.count > 0)
    case _ => Quiet(h)
  }

  predicate Inv(s: State) {
    && (forall t :: 0 <= t < |s.th| ==> ThInv(s, t, s.th[t]))
    && (!s.rp.SWait? && !s.rp.RWait? ==> s.sem == 0)
    && (!s.rp.RFree? && !s.rp.RHeld? ==> s.rp.t < |s.th|)
    && (s.rp.SKill? || s.rp.SWait? || s.rp.SCheck? || s.rp.RKill? || s.rp.RWait? ==> s.target == Some(s.rp.t))
  }

  /** A handler touches its own thread only. */
  lemma HandlerFrame(s: State, s': State, t: nat)
    requires HandlerStep(s, s', t) && Inv(s)
    ensures |s'.th| == |s.th| && s'.rp == s.rp && s'.target == s.target
    ensures forall q :: 0 <= q < |s.th| && q != t ==> s'.th[q] == s.th[q]
  {
    assert ThInv(s, t, s.th[t]);
  }

  /** It posts only when the requester waits for that thread. */
  lemma HandlerPosts(s: State, s': State, t: nat)
    requires HandlerStep(s, s', t) && Inv(s)
    ensures s'.sem != s.sem ==> (s.rp.SWait? || s.rp.RWait?) && s.rp.t == t
  {
    assert ThInv(s, t, s.th[t]);
  }

  lemma HandlerOwn(s: State, s': State, t: nat)
    requires HandlerStep(s, s', t) && Inv(s)
    ensures t < |s'.th| && ThInv(s', t, s'.th[t])
  {
    assert ThInv(s, t, s.th[t]);
    if s.rp.SWait? && s.rp.t == t { SuspendingOwn(s, s', t); }
    else if s.rp.RWait? && s.rp.t == t { ResumingOwn(s, s', t); }
    else { RestOwn(s, s', t); }
  }

  lemma SuspendingOwn(s: State, s': State, t: nat)
    requires HandlerStep(s, s', t) && s.rp == SWait(t) && s.target == Some(t) && BeingSuspended(s, t, s.th[t])
    ensures t < |s'.th| && s'.rp == s.rp && BeingSuspended(s', t, s'.th[t])
  {
  }

  lemma ResumingOwn(s: State, s': State, t: nat)
    requires HandlerStep(s, s', t) && s.rp == RWait(t) && s.target == Some(t) && BeingResumed(s, t, s.th[t])
    ensures t < |s'.th| && s'.rp == s.rp && BeingResumed(s', t, s'.th[t])
  {
  }

  lemma RestOwn(s: State, s': State, t: nat)
    requires HandlerStep(s, s', t) && ThInv(s, t, s.th[t])
    requires !((s.rp.SWait? || s.rp.RWait?) && s.rp.t == t)
    ensures t < |s'.th| && ThInv(s', t, s'.th[t])
  {
  }

  lemma HandlerKeeps(s: State, s': State, t: nat)
    requires HandlerStep(s, s', t) && Inv(s)
    ensures Inv(s')
  {
    hide HandlerStep;
    HandlerFrame(s, s', t);
    HandlerPosts(s, s', t);
    HandlerOwn(s, s', t);
    forall q | 0 <= q < |s'.th| && q != t ensures ThInv(s', q, s'.th[q]) {
      assert ThInv(s, q, s.th[q]);
    }
  }

  lemma OwnKeeps(s: State, s': State, t: nat)
    requires OwnStore(s, s', t) && Inv(s)
    ensures Inv(s')
  {
    forall q | 0 <= q < |s'.th| ensures ThInv(s', q, s'.th[q]) {
      assert ThInv(s, q, s.th[q]);
    }
  }

  lemma RequesterKeeps(s: State, s': State)
    requires RequesterStep(s, s') && Inv(s)
    ensures Inv(s')
  {
    forall q | 0 <= q < |s'.th| ensures ThInv(s', q, s'.th[q]) {
      assert ThInv(s, q, s.th[q]);
    }
  }

  lemma {:induction false} RunInv(run: seq<State>, who: seq<Actor>, i: nat)
    requires IsRun(run, who) && i < |run|
    ensures Inv(run[i])
  {
    hide HandlerStep, RequesterStep, OwnStore;
    if i > 0 {
      RunInv(run, who, i - 1);
      assert Step(run[i - 1], run[i], who[i - 1]);
      match who[i - 1]
      case Handler(t) => HandlerKeeps(run[i - 1], run[i], t);
      case Own(t) => OwnKeeps(run[i - 1], run[i], t);
      case Requester => RequesterKeeps(run[i - 1], run[i]);
    }
  }

  // ---------------------------------------------------------------- what callers rely on

  /** Whenever the locker is free, the semaphore is empty, no signal is on its way, every thread is
      either stopped or running, and only threads with a positive count are stopped. */
  lemma FreeLockerState(run: seq<State>, who: seq<Actor>, i: nat, t: nat)
    requires IsRun(run, who) && i < |run| && t < |run[i].th| && (run[i].rp == RFree || run[i].rp == RHeld)
    ensures run[i].sem == 0 && !run[i].th[t].pending
    ensures Stopped(run[i].th[t].hp) ==> run[i].th[t].count > 0
    ensures Stopped(run[i].th[t].hp) <==> !Running(run[i].th[t].hp)
  {
    RunInv(run, who, i);
    assert ThInv(run[i], t, run[i].th[t]);
  }

  /** Every handler that reads the target pointer finds the thread it runs on, and no handler nested
      in `sigsuspend` suspends a second time. */
  lemma HandlerReadsItself(run: seq<State>, who: seq<Actor>, i: nat, t: nat)
    requires IsRun(run, who) && i < |run| && t < |run[i].th|
    ensures var hp := run[i].th[t].hp;
            && (hp == HEnter || hp == HNest || hp == HWake ==> run[i].target == Some(t))
            && (hp.HCheck? || hp.HNestCheck? || hp.HClear? ==> hp.r == Some(t))
            && (hp.HNestCheck? ==> run[i].th[t].count != 0)
            && hp != HLost
  {
    RunInv(run, who, i);
    assert ThInv(run[i], t, run[i].th[t]);
  }

  /** However often a handler backed off, no token is left when a request goes on: neither when the
      target is signalled again, nor when the count changes. */
  lemma NoStrayToken(run: seq<State>, who: seq<Actor>, i: nat)
    requires IsRun(run, who) && i < |run|
    ensures run[i].sem > 0 ==> run[i].sem == 1 && (run[i].rp.SWait? || run[i].rp.RWait?) && run[i].rp.t < |run[i].th|
    ensures run[i].sem > 0 ==> !run[i].th[run[i].rp.t].pending
    ensures run[i].rp.SKill? ==> run[i].rp.t < |run[i].th| && !run[i].th[run[i].rp.t].pending
  {
    RunInv(run, who, i);
    if !run[i].rp.RFree? && !run[i].rp.RHeld? {
      assert ThInv(run[i], run[i].rp.t, run[i].th[run[i].rp.t]);
    }
  }

  /** A thread stopped by a suspension stays stopped, and runs no code of its own, until the `resume`
      that takes its count to zero sends it a signal. */
  lemma SuspensionLasts(run: seq<State>, who: seq<Actor>, i: nat, t: nat)
    requires IsRun(run, who) && i < |who| && t < |run[i].th| == |run[i + 1].th|
    requires Stopped(run[i].th[t].hp) && !Stopped(run[i + 1].th[t].hp)
    ensures run[i].rp == RWait(t) && run[i].th[t].count == 1 && run[i].target == Some(t)
  {
    RunInv(run, who, i);
    assert Step(run[i], run[i + 1], who[i]);
    assert ThInv(run[i], t, run[i].th[t]);
    if who[i].Handler? { HandlerFrame(run[i], run[i + 1], who[i].t); }
  }

  // ---------------------------------------------------------------- a count means a stopped thread

  /** The count can be relied on: while the locker is free a thread is stopped if its count is
      positive, `suspend` counts only a stopped thread, `resume` gives up the last level of a thread
      that runs again and any other of one that is still stopped, and no `resume` waits in vain. */
  predicate Sound(s: State) {
    && (s.rp.RFree? || s.rp.RHeld? ==> forall t :: 0 <= t < |s.th| && s.th[t].count > 0 ==> Stopped(s.th[t].hp))
    && (s.rp.SAdd? && s.rp.t < |s.th| ==> Stopped(s.th[s.rp.t].hp))
    && (s.rp.RSub? && s.rp.t < |s.th| ==> (s.th[s.rp.t].count == 1 <==> Running(s.th[s.rp.t].hp)))
    && !Doomed(s)
  }

  /** `resume` waits for a thread that was running when it was signalled: its handler sees the count
      and returns without posting. */
  predicate Doomed(s: State) {
    && s.rp.RWait? && s.rp.t < |s.th| && s.sem == 0
    && var h := s.th[s.rp.t];
       && h.count == 1
       && (Running(h.hp) || (!h.pending && (h.hp == HEnter || h.hp == HCheck(Some(s.rp.t)))))
  }

  /** The handler has posted and `suspend` has not read the stack pointer yet. */
  predicate InWindow(s: State) {
    (s.rp.SWait? && s.sem > 0) || s.rp.SCheck?
  }

  /** In the window the run is in after `n` steps, the target has stored its own stack pointer. */
  predicate Late(run: seq<State>, who: seq<Actor>, n: nat)
    requires n < |run| == |who| + 1
  {
    n > 0 && InWindow(run[n]) && (who[n - 1] == Own(run[n].rp.t) || Late(run, who, n - 1))
  }

  /** `suspend` takes such a store for the handler's. */
  predicate ReadsLateStore(run: seq<State>, who: seq<Actor>, j: nat)
    requires j < |who| < |run| == |who| + 1
  {
    who[j] == Requester && run[j].rp.SCheck? && Late(run, who, j)
  }

  /** Beyond `Inv`: whoever is counted is stopped, and a set stack pointer says so unless it is a
      late store. */
  predicate Counted(s: State, t: nat, h: Th, late: bool) {
    match s.rp
    case SWait(a) => if t == a then s.sem > 0 ==> Announced(h, late) else CountedQuiet(h)
    case SCheck(a) => if t == a then Announced(h, late) else CountedQuiet(h)
    case SAdd(a) => if t == a then Stopped(h.hp) else CountedQuiet(h)
    case RWait(a) => if t == a then NeverBacksOff(s, h) else CountedQuiet(h)
    case RSub(a) => if t == a then h.count > 1 ==> Stopped(h.hp) else CountedQuiet(h)
    case _ => CountedQuiet(h)
  }

  predicate CountedQuiet(h: Th) {
    h.count > 0 ==> Stopped(h.hp)
  }

  predicate Announced(h: Th, late: bool) {
    if late then h.sp && Running(h.hp) else h.sp ==> Stopped(h.hp)
  }

  predicate NeverBacksOff(s: State, h: Th) {
    s.sem == 0 ==> !Running(h.hp) && !h.hp.HEnter? && !h.hp.HCheck?
  }

  predicate AllCounted(s: State, late: bool) {
    && (late ==> InWindow(s))
    && forall t :: 0 <= t < |s.th| ==> Counted(s, t, s.th[t], late)
  }

  function LateAfter(s': State, a: Actor, late: bool): bool {
    InWindow(s') && (a == Own(s'.rp.t) || late)
  }

  lemma HandlerCounts(s: State, s': State, t: nat, late: bool)
    requires HandlerStep(s, s', t) && Inv(s) && AllCounted(s, late)
    ensures AllCounted(s', LateAfter(s', Handler(t), late))
  {
    HandlerFrame(s, s', t);
    HandlerPosts(s, s', t);
    assert ThInv(s, t, s.th[t]) && Counted(s, t, s.th[t], late);
    HandlerCountsOwn(s, s', t, late);
    forall q | 0 <= q < |s'.th| && q != t ensures Counted(s', q, s'.th[q], LateAfter(s', Handler(t), late)) {
      assert Counted(s, q, s.th[q], late);
    }
  }

  lemma HandlerCountsOwn(s: State, s': State, t: nat, late: bool)
    requires HandlerStep(s, s', t) && ThInv(s, t, s.th[t]) && Counted(s, t, s.th[t], late) && s'.rp == s.rp
    requires late ==> InWindow(s)
    requires (s.rp.SWait? || s.rp.RWait?) && s.rp.t == t ==> s.target == Some(t)
    ensures t < |s'.th| && Counted(s', t, s'.th[t], LateAfter(s', Handler(t), late))
  {
  }

  lemma OwnCounts(s: State, s': State, t: nat, late: bool)
    requires OwnStore(s, s', t) && Inv(s) && AllCounted(s, late)
    ensures AllCounted(s', LateAfter(s', Own(t), late))
  {
    forall q | 0 <= q < |s'.th| ensures Counted(s', q, s'.th[q], LateAfter(s', Own(t), late)) {
      assert ThInv(s, q, s.th[q]) && Counted(s, q, s.th[q], late);
    }
  }

  lemma RequesterCounts(s: State, s': State, late: bool)
    requires RequesterStep(s, s') && Inv(s) && AllCounted(s, late) && !(late && s.rp.SCheck?)
    ensures AllCounted(s', LateAfter(s', Requester, late))
  {
    forall q | 0 <= q < |s'.th| ensures Counted(s', q, s'.th[q], LateAfter(s', Requester, late)) {
      assert ThInv(s, q, s.th[q]) && Counted(s, q, s.th[q], late);
    }
  }

  lemma {:induction false} RunCounts(run: seq<State>, who: seq<Actor>, n: nat)
    requires IsRun(run, who) && n < |run| && forall j :: 0 <= j < n ==> !ReadsLateStore(run, who, j)
    ensures AllCounted(run[n], Late(run, who, n))
  {
    hide HandlerStep, RequesterStep, OwnStore, Counted, Inv;
    if n == 0 {
      StartCounts(run[0]);
    } else {
      RunCounts(run, who, n - 1);
      RunInv(run, who, n - 1);
      var late := Late(run, who, n - 1);
      assert Step(run[n - 1], run[n], who[n - 1]);
      assert Late(run, who, n) == LateAfter(run[n], who[n - 1], late);
      match who[n - 1]
      case Handler(t) => HandlerCounts(run[n - 1], run[n], t, late);
      case Own(t) => OwnCounts(run[n - 1], run[n], t, late);
      case Requester => assert !ReadsLateStore(run, who, n - 1); RequesterCounts(run[n - 1], run[n], late);
    }
  }

  lemma StartCounts(s: State)
    requires Start(s)
    ensures AllCounted(s, false)
  {
  }

  lemma CountsAreSound(s: State, late: bool)
    requires Inv(s) && AllCounted(s, late)
    ensures Sound(s)
  {
    forall t | 0 <= t < |s.th| ensures ThInv(s, t, s.th[t]) && Counted(s, t, s.th[t], late) {
    }
  }

  /** The read of a late store shows at once: `suspend` counts a thread that runs. */
  lemma LateReadShows(s: State, s': State)
    requires RequesterStep(s, s') && s.rp.SCheck? && Inv(s) && AllCounted(s, true)
    ensures !Sound(s')
  {
    assert Counted(s, s.rp.t, s.th[s.rp.t], true);
  }

  /** The count can be relied on throughout a run exactly if no `suspend` reads a stack pointer that
      its target stored by itself after its handler's post. */
  lemma SoundExactly(run: seq<State>, who: seq<Actor>)
    requires IsRun(run, who)
    ensures (forall i :: 0 <= i < |run| ==> Sound(run[i])) <==>
            (forall j :: 0 <= j < |who| ==> !ReadsLateStore(run, who, j))
  {
    hide Step, ReadsLateStore, Sound, AllCounted, Inv;
    if forall j :: 0 <= j < |who| ==> !ReadsLateStore(run, who, j) {
      forall i | 0 <= i < |run| ensures Sound(run[i]) {
        RunCounts(run, who, i);
        RunInv(run, who, i);
        CountsAreSound(run[i], Late(run, who, i));
      }
    } else {
      var j := FirstLateRead(run, who);
      LateReadUnsound(run, who, j);
    }
  }

  /** Up to the first such read, `suspend` ends its wait loop only with its target stopped, `resume`
      gives up the last level only once the target has left `sigsuspend`, neither leaves a token
      behind, a `resume` that waits is going to get its post, and while the locker is free the stopped
      threads are those with a positive count. */
  lemma RequestsComplete(run: seq<State>, who: seq<Actor>, i: nat)
    requires IsRun(run, who) && i < |run| && forall j :: 0 <= j < i ==> !ReadsLateStore(run, who, j)
    ensures run[i].rp.SAdd? || run[i].rp.RSub? ==> run[i].rp.t < |run[i].th| && run[i].sem == 0
    ensures run[i].rp.SAdd? ==> Stopped(run[i].th[run[i].rp.t].hp)
    ensures run[i].rp.RSub? ==> (run[i].th[run[i].rp.t].count == 1 <==> Running(run[i].th[run[i].rp.t].hp))
    ensures run[i].rp.RWait? ==> PostComes(run[i]) && !ResumeIsStuck(run[i])
    ensures run[i].rp.RFree? || run[i].rp.RHeld? ==>
              forall t :: 0 <= t < |run[i].th| ==> (run[i].th[t].count > 0 <==> Stopped(run[i].th[t].hp))
  {
    RunCounts(run, who, i);
    RunInv(run, who, i);
    CountsAreSound(run[i], Late(run, who, i));
    if run[i].rp.RWait? { WaitsEitherWay(run[i]); }
    forall t | 0 <= t < |run[i].th| ensures ThInv(run[i], t, run[i].th[t]) {
    }
  }

  lemma LateReadUnsound(run: seq<State>, who: seq<Actor>, j: nat)
    requires IsRun(run, who) && j < |who| && ReadsLateStore(run, who, j)
    requires forall k :: 0 <= k < j ==> !ReadsLateStore(run, who, k)
    ensures !Sound(run[j + 1])
  {
    hide HandlerStep, RequesterStep, OwnStore, Sound, AllCounted, Inv;
    RunCounts(run, who, j);
    RunInv(run, who, j);
    assert Step(run[j], run[j + 1], who[j]);
    LateReadShows(run[j], run[j + 1]);
  }

  lemma FirstLateRead(run: seq<State>, who: seq<Actor>) returns (j: nat)
    requires |run| == |who| + 1 && exists k :: 0 <= k < |who| && ReadsLateStore(run, who, k)
    ensures j < |who| && ReadsLateStore(run, who, j) && forall k :: 0 <= k < j ==> !ReadsLateStore(run, who, k)
  {
    hide ReadsLateStore;
    j := 0;
    while !ReadsLateStore(run, who, j)
      invariant j < |who| && (forall k :: 0 <= k < j ==> !ReadsLateStore(run, who, k))
      invariant exists k :: j <= k < |who| && ReadsLateStore(run, who, k)
      decreases |who| - j
    {
      j := j + 1;
    }
  }

  // ---------------------------------------------------------------- what the count counts

  /** The thread a `suspend` under way is for. */
  function Suspending(r: RPc): Option<nat> {
    match r
    case SLoad(t) => Some(t)
    case STarget(t) => Some(t)
    case SKill(t) => Some(t)
    case SWait(t) => Some(t)
    case SCheck(t) => Some(t)
    case SAdd(t) => Some(t)
    case _ => None
  }

  /** The thread a `resume` under way is for. */
  function Resuming(r: RPc): Option<nat> {
    match r
    case RLoad(t) => Some(t)
    case RTarget(t) => Some(t)
    case RKill(t) => Some(t)
    case RWait(t) => Some(t)
    case RSub(t) => Some(t)
    case _ => None
  }

  /** Calls of `suspend` on thread `t` that have begun by `i`. */
  function Suspends(run: seq<State>, i: nat, t: nat): (n: nat)
    requires i < |run|
  {
    if i == 0 then 0
    else Suspends(run, i - 1, t) + if run[i - 1].rp == RHeld && Suspending(run[i].rp) == Some(t) then 1 else 0
  }

  /** Calls of `resume` on thread `t` that have begun by `i`. */
  function Resumes(run: seq<State>, i: nat, t: nat): (n: nat)
    requires i < |run|
  {
    if i == 0 then 0
    else Resumes(run, i - 1, t) + if run[i - 1].rp == RHeld && Resuming(run[i].rp) == Some(t) then 1 else 0
  }

  /** The effect of the call under way that has not reached the count yet. */
  function Due(r: RPc, t: nat): int {
    if Suspending(r) == Some(t) then 1 else if Resuming(r) == Some(t) then -1 else 0
  }

  lemma StepNesting(s: State, s': State, a: Actor, t: nat)
    requires Step(s, s', a) && t < |s.th|
    ensures |s'.th| == |s.th|
    ensures s'.th[t].count + Due(s'.rp, t) == s.th[t].count + Due(s.rp, t) + if s.rp == RHeld then Due(s'.rp, t) else 0
  {
    match a
    case Handler(q) => HandlerNesting(s, s', q, t);
    case Own(q) =>
    case Requester => RequesterNesting(s, s', t);
  }

  lemma HandlerNesting(s: State, s': State, q: nat, t: nat)
    requires HandlerStep(s, s', q) && t < |s.th|
    ensures |s'.th| == |s.th| && s'.th[t].count == s.th[t].count && s'.rp == s.rp
  {
  }

  lemma RequesterNesting(s: State, s': State, t: nat)
    requires RequesterStep(s, s') && t < |s.th|
    ensures |s'.th| == |s.th|
    ensures s'.th[t].count + Due(s'.rp, t) == s.th[t].count + Due(s.rp, t) + if s.rp == RHeld then Due(s'.rp, t) else 0
  {
  }

  lemma {:induction false} CountWithDue(run: seq<State>, who: seq<Actor>, i: nat, t: nat)
    requires IsRun(run, who) && i < |run| && t < |run[0].th|
    ensures t < |run[i].th|
    ensures run[i].th[t].count + Due(run[i].rp, t) == Suspends(run, i, t) - Resumes(run, i, t)
  {
    hide Step;
    if i > 0 {
      CountWithDue(run, who, i - 1, t);
      StepNesting(run[i - 1], run[i], who[i - 1], t);
    }
  }

  /** Over every run and whatever the handlers do, the nesting count of a thread is the number of calls
      of `suspend` on it less the number of calls of `resume`, whenever none is under way. */
  lemma CountIsNesting(run: seq<State>, who: seq<Actor>, i: nat, t: nat)
    requires IsRun(run, who) && i < |run| && t < |run[0].th| && (run[i].rp == RFree || run[i].rp == RHeld)
    ensures t < |run[i].th| && run[i].th[t].count == Suspends(run, i, t) - Resumes(run, i, t)
  {
    CountWithDue(run, who, i, t);
  }

  /** So, up to the first read of a late store, a thread is stopped exactly while it has been suspended
      more often than resumed. */
  lemma StoppedWhileNested(run: seq<State>, who: seq<Actor>, i: nat, t: nat)
    requires IsRun(run, who) && i < |run| && t < |run[0].th| && (run[i].rp == RFree || run[i].rp == RHeld)
    requires forall j :: 0 <= j < i ==> !ReadsLateStore(run, who, j)
    ensures t < |run[i].th| && (Stopped(run[i].th[t].hp) <==> Suspends(run, i, t) > Resumes(run, i, t))
  {
    CountIsNesting(run, who, i, t);
    RequestsComplete(run, who, i);
  }

  // ---------------------------------------------------------------- whether a resume ends

  /** The target was stopped when it was signalled: it is on its way out of `sigsuspend`, or its post
      is in the semaphore. */
  predicate PostComes(s: State) {
    && s.rp.RWait? && s.rp.t < |s.th|
    && var h := s.th[s.rp.t];
       && h.count == 1
       && (|| (s.sem == 0 && h.pending && Stopped(h.hp))
           || (s.sem == 0 && !h.pending
               && (h.hp == HNest || h.hp == HNestCheck(Some(s.rp.t)) || h.hp == HWake || h.hp == HClear(Some(s.rp.t))
                   || h.hp == HDone))
           || (s.sem == 1 && !h.pending && Running(h.hp)))
  }

  /** Steps of the handler that are left until the post. */
  function StepsLeft(s: State): nat
    requires PostComes(s)
  {
    match s.th[s.rp.t].hp
    case HCommit => 7
    case HSleep => 6
    case HNest => 5
    case HNestCheck(_) => 4
    case HWake => 3
    case HClear(_) => 2
    case HDone => 1
    case _ => 0
  }

  /** A waiting `resume` is in one of the two cases. */
  lemma WaitsEitherWay(s: State)
    requires Inv(s) && s.rp.RWait?
    ensures Doomed(s) <==> !PostComes(s)
  {
    assert ThInv(s, s.rp.t, s.th[s.rp.t]);
  }

  /** No step of anybody ends a wait that is in vain. */
  lemma DoomedStaysDoomed(s: State, s': State, a: Actor)
    requires Inv(s) && Doomed(s) && Step(s, s', a)
    ensures Doomed(s') && s'.rp == s.rp
  {
    assert ThInv(s, s.rp.t, s.th[s.rp.t]);
    if a.Handler? {
      HandlerFrame(s, s', a.t);
      HandlerPosts(s, s', a.t);
      if a.t == s.rp.t { DoomedHandler(s, s'); }
    }
  }

  lemma DoomedHandler(s: State, s': State)
    requires Inv(s) && Doomed(s) && HandlerStep(s, s', s.rp.t) && s.target == Some(s.rp.t)
    ensures Doomed(s') && s'.rp == s.rp
  {
    assert ThInv(s, s.rp.t, s.th[s.rp.t]);
  }

  /** Every step of a wait that is not in vain keeps it so, with no more steps of the handler left than
      before and with fewer if the handler took it, or ends it. */
  lemma PostDrawsNearer(s: State, s': State, a: Actor)
    requires Inv(s) && PostComes(s) && Step(s, s', a)
    ensures s'.rp == RSub(s.rp.t) || (PostComes(s') && s'.rp == s.rp && StepsLeft(s') <= StepsLeft(s))
    ensures a == Handler(s.rp.t) && StepsLeft(s) > 0 ==> PostComes(s') && StepsLeft(s') < StepsLeft(s)
    ensures a == Requester ==> s'.rp == RSub(s.rp.t)
  {
    assert ThInv(s, s.rp.t, s.th[s.rp.t]);
    match a
    case Handler(t) =>
      HandlerFrame(s, s', t);
      HandlerPosts(s, s', t);
      if t == s.rp.t { PostHandler(s, s'); }
    case Own(t) =>
    case Requester =>
  }

  lemma PostHandler(s: State, s': State)
    requires Inv(s) && PostComes(s) && HandlerStep(s, s', s.rp.t) && s.target == Some(s.rp.t)
    ensures PostComes(s') && s'.rp == s.rp && StepsLeft(s') <= StepsLeft(s)
    ensures StepsLeft(s) > 0 ==> StepsLeft(s') < StepsLeft(s)
  {
    assert ThInv(s, s.rp.t, s.th[s.rp.t]);
  }

  /** The handler, or the requester once there is a post, can always take its next step. */
  lemma NobodyIsInTheWay(s: State) returns (s': State, a: Actor)
    requires Inv(s) && PostComes(s)
    ensures Step(s, s', a) && a == if StepsLeft(s) > 0 then Handler(s.rp.t) else Requester
  {
    var t := s.rp.t;
    var h := s.th[t];
    assert ThInv(s, t, h);
    a := if StepsLeft(s) > 0 then Handler(t) else Requester;
    s' := match h.hp
      case HCommit => Upd(s, t, h.(hp := HSleep))
      case HSleep => Upd(s, t, h.(pending := false, hp := HNest))
      case HNest => Upd(s, t, h.(hp := HNestCheck(s.target)))
      case HNestCheck(_) => Upd(s, t, h.(hp := HWake))
      case HWake => Upd(s, t, h.(hp := HClear(s.target)))
      case HClear(_) => Upd(s, t, h.(sp := false, hp := HDone))
      case HDone => Upd(s, t, h.(hp := HReturn)).(sem := s.sem + 1)
      case _ => s.(sem := s.sem - 1, rp := RSub(t));
    var g := h.(sp := false, hp := HDone);
    assert s.th[t := h.(sp := false)][t := g] == s.th[t := g];
  }

  /** Whatever happens, the `resume` goes on waiting. */
  ghost predicate NeverEnds(s: State) {
    forall s' :: Reaches(s, s') ==> s'.rp == s.rp
  }

  lemma {:induction false} DoomedForEver(s: State, ss: seq<State>, ws: seq<Actor>, i: nat)
    requires Inv(s) && Doomed(s) && i < |ss| == |ws| + 1 && ss[0] == s
    requires forall k :: 0 <= k < |ws| ==> Step(ss[k], ss[k + 1], ws[k])
    ensures Inv(ss[i]) && Doomed(ss[i]) && ss[i].rp == s.rp
  {
    hide Step, Inv, Doomed;
    if i > 0 {
      DoomedForEver(s, ss, ws, i - 1);
      DoomedStaysDoomed(ss[i - 1], ss[i], ws[i - 1]);
      StepKeepsInv(ss[i - 1], ss[i], ws[i - 1]);
    }
  }

  lemma StepKeepsInv(s: State, s': State, a: Actor)
    requires Inv(s) && Step(s, s', a)
    ensures Inv(s')
  {
    hide HandlerStep, RequesterStep, OwnStore, Inv;
    match a
    case Handler(t) => HandlerKeeps(s, s', t);
    case Own(t) => OwnKeeps(s, s', t);
    case Requester => RequesterKeeps(s, s');
  }

  lemma {:induction false} WaitCanEnd(s: State) returns (s': State)
    requires Inv(s) && PostComes(s)
    ensures Reaches(s, s') && s'.rp == RSub(s.rp.t)
    decreases StepsLeft(s)
  {
    hide Reaches, Step, Inv, PostComes, StepsLeft;
    var m, a := NobodyIsInTheWay(s);
    PostDrawsNearer(s, m, a);
    StepKeepsInv(s, m, a);
    Begun(s);
    Then(s, s, a, m);
    if a == Requester {
      s' := m;
    } else {
      s' := WaitCanEnd(m);
      Joined(s, m, s');
    }
  }

  /** Once `resume` has sent its signal, its wait can never end exactly if the thread was running. */
  lemma ResumeEndsExactly(s: State, s': State)
    requires Inv(s) && s.rp.RKill? && RequesterStep(s, s')
    ensures s'.rp == RWait(s.rp.t) && (NeverEnds(s') <==> Running(s.th[s.rp.t].hp))
  {
    assert ThInv(s, s.rp.t, s.th[s.rp.t]);
    RequesterKeeps(s, s');
    WaitsEitherWay(s');
    NeverEndsIfDoomed(s');
  }

  lemma NeverEndsIfDoomed(s: State)
    requires Inv(s) && s.rp.RWait?
    ensures NeverEnds(s) <==> Doomed(s)
  {
    hide Inv, Doomed, PostComes, Step;
    WaitsEitherWay(s);
    if Doomed(s) {
      forall s' | Reaches(s, s') ensures s'.rp == s.rp {
        var ss, ws :| Joins(s, s', ss, ws);
        DoomedForEver(s, ss, ws, |ws|);
      }
    } else {
      var s' := WaitCanEnd(s);
    }
  }

  // ---------------------------------------------------------------- without an alternative stack

  /** A handler that runs on an alternative stack backs off. */
  predicate BacksOff(s: State, a: Actor) {
    a.Handler? && a.t < |s.th| && s.th[a.t].hp.HAltStore?
  }

  /** The handler's post says that the thread is stopped. */
  predicate Direct(s: State) {
    && (s.rp.SWait? && s.rp.t < |s.th| ==> s.th[s.rp.t].hp != HAltPost && (s.sem > 0 ==> Stopped(s.th[s.rp.t].hp)))
    && (s.rp.SCheck? && s.rp.t < |s.th| ==> Stopped(s.th[s.rp.t].hp))
  }

  lemma StepKeepsDirect(s: State, s': State, a: Actor)
    requires Inv(s) && Direct(s) && Step(s, s', a) && !BacksOff(s, a)
    ensures Direct(s')
  {
    if !s.rp.RFree? && !s.rp.RHeld? { assert ThInv(s, s.rp.t, s.th[s.rp.t]); }
    match a
    case Handler(t) =>
      HandlerFrame(s, s', t);
      HandlerPosts(s, s', t);
    case Own(t) =>
    case Requester =>
  }

  lemma {:induction false} RunDirect(run: seq<State>, who: seq<Actor>, n: nat)
    requires IsRun(run, who) && n < |run| && forall j :: 0 <= j < n ==> !BacksOff(run[j], who[j])
    ensures Direct(run[n]) && !Late(run, who, n)
  {
    hide Step, BacksOff, Inv;
    if n > 0 {
      RunDirect(run, who, n - 1);
      RunInv(run, who, n - 1);
      assert Step(run[n - 1], run[n], who[n - 1]);
      StepKeepsDirect(run[n - 1], run[n], who[n - 1]);
      if InWindow(run[n]) { NoStoreInWindow(run[n - 1], run[n], who[n - 1]); }
    }
  }

  lemma NoStoreInWindow(s: State, s': State, a: Actor)
    requires Inv(s) && Direct(s) && Step(s, s', a) && InWindow(s')
    ensures a != Own(s'.rp.t)
  {
  }

  /** A run in which no handler backs off can be relied on throughout. */
  lemma SoundWithoutBackOff(run: seq<State>, who: seq<Actor>)
    requires IsRun(run, who) && forall j :: 0 <= j < |who| ==> !BacksOff(run[j], who[j])
    ensures forall i :: 0 <= i < |run| ==> Sound(run[i])
  {
    hide Step, BacksOff, Sound;
    forall j | 0 <= j < |who| ensures !ReadsLateStore(run, who, j) { RunDirect(run, who, j); }
    SoundExactly(run, who);
  }

  // ---------------------------------------------------------------- the run that goes wrong

  ghost predicate Joins(a: State, s: State, ss: seq<State>, ws: seq<Actor>) {
    && |ss| == |ws| + 1 && ss[0] == a && ss[|ws|] == s
    && forall i :: 0 <= i < |ws| ==> Step(ss[i], ss[i + 1], ws[i])
  }

  ghost predicate Reaches(a: State, s: State) {
    exists ss, ws :: Joins(a, s, ss, ws)
  }

  lemma Then(a: State, s: State, w: Actor, s': State)
    requires Reaches(a, s) && Step(s, s', w)
    ensures Reaches(a, s')
  {
    hide Step;
    var ss, ws :| Joins(a, s, ss, ws);
    var ss', ws' := ss + [s'], ws + [w];
    forall i | 0 <= i < |ws'| ensures Step(ss'[i], ss'[i + 1], ws'[i]) {
      if i < |ws| { assert Step(ss[i], ss[i + 1], ws[i]); }
    }
    assert Joins(a, s', ss', ws');
  }

  lemma Joined(a: State, m: State, s: State)
    requires Reaches(a, m) && Reaches(m, s)
    ensures Reaches(a, s)
  {
    hide Step;
    var ss, ws :| Joins(a, m, ss, ws);
    var ts, vs :| Joins(m, s, ts, vs);
    var us, xs := ss + ts[1..], ws + vs;
    forall i | 0 <= i < |xs| ensures Step(us[i], us[i + 1], xs[i]) {
      if i < |ws| {
        assert Step(ss[i], ss[i + 1], ws[i]);
      } else {
        assert Step(ts[i - |ws|], ts[i - |ws| + 1], vs[i - |ws|]);
      }
    }
    assert Joins(a, s, us, xs);
  }

  function One(sem: nat, h: Th, rp: RPc): State {
    State(sem, Some(0), [h], rp)
  }

  lemma Updates()
    ensures forall x: Th, y: Th :: [x][0 := y] == [y]
  {
  }

  /** `suspend`, up to its wait. */
  lemma Signalled(a: State)
    requires a == State(0, None, [Th(false, 0, false, HIdle)], RFree)
    ensures Reaches(a, One(0, Th(true, 0, false, HIdle), SWait(0)))
  {
    hide Reaches;
    Updates();
    var h := Th(false, 0, false, HIdle);
    Begun(a);
    Then(a, a, Requester, a.(rp := RHeld));
    Then(a, a.(rp := RHeld), Requester, a.(rp := SLoad(0)));
    Then(a, a.(rp := SLoad(0)), Requester, a.(rp := STarget(0)));
    Then(a, a.(rp := STarget(0)), Requester, One(0, h, SKill(0)));
    Then(a, One(0, h, SKill(0)), Requester, One(0, h.(pending := true), SWait(0)));
  }

  /** The handler, on an alternative stack. */
  lemma BackedOff(a: State)
    requires Reaches(a, One(0, Th(true, 0, false, HIdle), SWait(0)))
    ensures Reaches(a, One(1, Th(false, 0, false, HIdle), SWait(0)))
  {
    hide Reaches;
    Updates();
    var h, k := Th(false, 0, false, HIdle), SWait(0);
    Then(a, One(0, h.(pending := true), k), Handler(0), One(0, h.(hp := HEnter), k));
    Then(a, One(0, h.(hp := HEnter), k), Handler(0), One(0, h.(hp := HCheck(Some(0))), k));
    Then(a, One(0, h.(hp := HCheck(Some(0))), k), Handler(0), One(0, h.(hp := HWhere(0)), k));
    Then(a, One(0, h.(hp := HWhere(0)), k), Handler(0), One(0, h.(hp := HAltStore(0)), k));
    Then(a, One(0, h.(hp := HAltStore(0)), k), Handler(0), One(0, h.(hp := HAltPost), k));
    Then(a, One(0, h.(hp := HAltPost), k), Handler(0), One(1, h.(hp := HReturn), k));
    Then(a, One(1, h.(hp := HReturn), k), Handler(0), One(1, h, k));
  }

  /** The handler backs off; the thread enters native code; `suspend` takes the stack pointer stored
      there for the handler's and returns with the thread running. */
  lemma SuspendedWhileRunning() returns (run: seq<State>, who: seq<Actor>)
    ensures IsRun(run, who) && run[|who|] == One(0, Th(false, 1, true, HIdle), RHeld) && !Sound(run[|who|])
  {
    hide Reaches;
    Updates();
    var a := State(0, None, [Th(false, 0, false, HIdle)], RFree);
    var h := Th(false, 0, true, HIdle);
    Signalled(a);
    BackedOff(a);
    Then(a, One(1, h.(sp := false), SWait(0)), Own(0), One(1, h, SWait(0)));
    Then(a, One(1, h, SWait(0)), Requester, One(0, h, SCheck(0)));
    Then(a, One(0, h, SCheck(0)), Requester, One(0, h, SAdd(0)));
    var last := One(0, Th(false, 1, true, HIdle), RHeld);
    Then(a, One(0, h, SAdd(0)), Requester, last);
    assert last.th[0].count > 0 && !Stopped(last.th[0].hp);
    run, who := AsRun(a, last);
  }

  lemma Begun(a: State)
    ensures Reaches(a, a)
  {
    assert Joins(a, a, [a], []);
  }

  lemma AsRun(a: State, s: State) returns (run: seq<State>, who: seq<Actor>)
    requires Start(a) && Reaches(a, s)
    ensures IsRun(run, who) && run[0] == a && run[|who|] == s
  {
    var ss, ws :| Joins(a, s, ss, ws);
    run, who := ss, ws;
  }

  /** A thread that is counted but runs makes its `resume` wait for ever: once the handler has seen
      the count and returned, nobody will post. */
  predicate ResumeIsStuck(s: State) {
    && s.rp.RWait? && s.rp.t < |s.th| && s.sem == 0
    && s.th[s.rp.t].count == 1 && !s.th[s.rp.t].pending && Running(s.th[s.rp.t].hp)
  }

  lemma StuckStaysStuck(s: State, s': State, a: Actor)
    requires Inv(s) && ResumeIsStuck(s) && Step(s, s', a)
    ensures ResumeIsStuck(s')
  {
    assert ThInv(s, s.rp.t, s.th[s.rp.t]);
    if a.Handler? {
      HandlerFrame(s, s', a.t);
      HandlerPosts(s, s', a.t);
    }
  }

  /** And the `resume` of the run above gets there. */
  lemma ResumeGetsStuck() returns (run: seq<State>, who: seq<Actor>)
    ensures IsRun(run, who) && ResumeIsStuck(run[|who|])
  {
    hide Reaches;
    Updates();
    var r, w := SuspendedWhileRunning();
    var a := r[0];
    var h := Th(false, 1, true, HIdle);
    var k := RWait(0);
    Reached(r, w);
    Then(a, One(0, h, RHeld), Requester, One(0, h, RLoad(0)));
    Then(a, One(0, h, RLoad(0)), Requester, One(0, h, RTarget(0)));
    Then(a, One(0, h, RTarget(0)), Requester, One(0, h, RKill(0)));
    Then(a, One(0, h, RKill(0)), Requester, One(0, h.(pending := true), k));
    Then(a, One(0, h.(pending := true), k), Handler(0), One(0, h.(hp := HEnter), k));
    Then(a, One(0, h.(hp := HEnter), k), Handler(0), One(0, h.(hp := HCheck(Some(0))), k));
    Then(a, One(0, h.(hp := HCheck(Some(0))), k), Handler(0), One(0, h.(hp := HReturn), k));
    Then(a, One(0, h.(hp := HReturn), k), Handler(0), One(0, h, k));
    run, who := AsRun(a, One(0, h, k));
  }

  lemma Reached(run: seq<State>, who: seq<Actor>)
    requires IsRun(run, who)
    ensures Reaches(run[0], run[|who|])
  {
    assert Joins(run[0], run[|who|], run, who);
  }
}

/** The re-entrant `Monitor`: a plain mutex, a holder word that is read without the mutex, and a
    count of guards, used by any number of threads.  One step is one access to the mutex, to the
    holder word, to the count, or to the condition variable.

    The simple form it refines is a lock with an owner and a depth.  It does so exactly as long as
    nobody uses, inside an unlocked scope, a guard that was taken before the scope began. */
module ReentrantMonitor {
  import opened Options

  /** The count is a `usize`; stepping it wraps around. */
  const USIZE: nat := 0x1_0000_0000_0000_0000

  function Inc(n: nat): nat {
    if n + 1 == USIZE then 0 else n + 1
  }

  function Dec(n: nat): nat {
    if n == 0 then USIZE - 1 else n - 1
  }

  /** What the threads share.  The holder word is 0 (`None`) or the slot of a thread. */
  datatype Words = Words(mutex: Option<nat>, holder: Option<nat>, rec: nat)

  /** Where a thread is inside the operations of the monitor. */
  datatype MPc =
    | Out
    // lock_no_handshake, lock_with_handshake
    | LkLoad | LkMutex(handshake: bool) | LkRaw | LkHolder | LkCount
    // Drop of a guard, and of one that was taken before scope `j` began
    | DrCount | SdCount(j: nat) | DrHolder | DrMutex
    // wait_no_handshake
    | WtCount | WtHolder(n: nat) | WtSleep(n: nat, h: Option<nat>) | WtAsleep(n: nat, h: Option<nat>)
    | WtSetCount(n: nat, h: Option<nat>) | WtSetHolder(n: nat, h: Option<nat>)
    // unlocked_no_handshake: unlock_completely, and the relocking after the action
    | UnLoad | UnCount(n: nat) | UnHolder(n: nat) | UnMutex(n: nat)
    | RlMutex | RlCount | RlHolder

  /** A thread.  `live` counts the guards it has taken since its innermost unlocked scope began and
      not dropped; for each scope it is in, `held` counts the guards from before that are still
      alive, and `saved` is the count that will be restored. */
  datatype Th = Th(pc: MPc, live: nat, held: seq<nat>, saved: seq<nat>)

  datatype Monitor = Monitor(w: Words, th: seq<Th>)

  function Sum(ns: seq<nat>): nat {
    if ns == [] then 0 else Sum(ns[..|ns| - 1]) + ns[|ns| - 1]
  }

  /** Each scope borrows the guard it was entered through; are there others from before? */
  predicate HasSuspended(h: Th) {
    Sum(h.held) > |h.held|
  }

  /** One step of thread `t`.  A guard takes up memory, so fewer than 2^64 - 1 are alive. */
  predicate Edge(w: Words, t: nat, h: Th, w': Words, h': Th) {
    match h.pc
    case Out =>
      && w' == w
      && (|| (h.live + 1 < USIZE && h' == h.(pc := LkLoad))
          || (h.live > 0 && h' == h.(pc := DrCount))
          || (HasSuspended(h) && h'.pc.SdCount? && h'.pc.j < |h.held| && h.held[h'.pc.j] > 0 && h' == h.(pc := h'.pc))
          || ((h.live > 0 || HasSuspended(h)) && (h' == h.(pc := WtCount) || h' == h.(pc := UnLoad)))
          || (h.saved != [] && h' == h.(pc := RlMutex)))
    case LkLoad =>
      && w' == w
      && (if w.holder == Some(t) then h' == h.(pc := LkCount)
          else h' == h.(pc := LkMutex(false)) || h' == h.(pc := LkMutex(true)))
    case LkMutex(handshake) =>
      && w.mutex == None && w' == w.(mutex := Some(t))
      && h' == h.(pc := if handshake then LkRaw else LkHolder)
    // attempt_leave_native_no_block has succeeded, or the raw guard is dropped and the loop goes on
    case LkRaw =>
      || (w' == w && h' == h.(pc := LkHolder))
      || (w' == w.(mutex := None) && h' == h.(pc := LkMutex(true)))
    case LkHolder => w' == w.(holder := Some(t)) && h' == h.(pc := LkCount)
    case LkCount => w' == w.(rec := Inc(w.rec)) && h' == h.(pc := Out, live := h.live + 1)
    case DrCount =>
      && h.live > 0 && w' == w.(rec := Dec(w.rec))
      && h' == h.(pc := if w.rec == 1 then DrHolder else Out, live := h.live - 1)
    case SdCount(j) =>
      && j < |h.held| && h.held[j] > 0 && w' == w.(rec := Dec(w.rec))
      && h' == h.(pc := if w.rec == 1 then DrHolder else Out, held := h.held[j := h.held[j] - 1])
    case DrHolder => w' == w.(holder := None) && h' == h.(pc := DrMutex)
    case DrMutex => w' == w.(mutex := None) && h' == h.(pc := Out)
    case WtCount => w' == w.(rec := 0) && h' == h.(pc := WtHolder(w.rec))
    case WtHolder(n) => w' == w.(holder := None) && h' == h.(pc := WtSleep(n, w.holder))
    case WtSleep(n, x) => w' == w.(mutex := None) && h' == h.(pc := WtAsleep(n, x))
    case WtAsleep(n, x) => w.mutex == None && w' == w.(mutex := Some(t)) && h' == h.(pc := WtSetCount(n, x))
    case WtSetCount(n, x) => w' == w.(rec := n) && h' == h.(pc := WtSetHolder(n, x))
    case WtSetHolder(n, x) => w' == w.(holder := x) && h' == h.(pc := Out)
    case UnLoad => w' == w && h' == h.(pc := UnCount(w.rec))
    case UnCount(n) => w' == w.(rec := 0) && h' == h.(pc := UnHolder(n))
    case UnHolder(n) => w' == w.(holder := None) && h' == h.(pc := UnMutex(n))
    case UnMutex(n) =>
      && w' == w.(mutex := None)
      && h' == h.(pc := Out, live := 0, held := h.held + [h.live], saved := h.saved + [n])
    case RlMutex => w.mutex == None && w' == w.(mutex := Some(t)) && h' == h.(pc := RlCount)
    case RlCount => h.saved != [] && w' == w.(rec := h.saved[|h.saved| - 1]) && h' == h.(pc := RlHolder)
    case RlHolder =>
      && h.saved != [] && h.held != [] && w' == w.(holder := Some(t))
      && h' == Th(Out, h.live + h.held[|h.held| - 1], h.held[..|h.held| - 1], h.saved[..|h.saved| - 1])
  }

  predicate Step(m: Monitor, m': Monitor, t: nat) {
    && t < |m.th| == |m'.th|
    && Edge(m.w, t, m.th[t], m'.w, m'.th[t])
    && m'.th == m.th[t := m'.th[t]]
  }

  predicate Start(m: Monitor) {
    && m.w == Words(None, None, 0)
    && forall t :: 0 <= t < |m.th| ==> m.th[t] == Th(Out, 0, [], [])
  }

  predicate IsRun(run: seq<Monitor>, who: seq<nat>) {
    && |run| == |who| + 1 && Start(run[0])
    && forall i :: 0 <= i < |who| ==> Step(run[i], run[i + 1], who[i])
  }

  // ---------------------------------------------------------------- the exception

  /** The thread is about to change the count through a guard it had given up: by dropping one, or by
      waiting or unlocking through one while it has none from within the scope. */
  predicate Misuse(h: Th) {
    h.pc.SdCount? || (h.live == 0 && (h.pc.WtCount? || h.pc.UnCount?))
  }

  predicate MisuseAt(m: Monitor, t: nat) {
    t < |m.th| && Misuse(m.th[t])
  }

  /** None of the first `n` steps is such a use. */
  predicate Disciplined(run: seq<Monitor>, who: seq<nat>, n: nat)
    requires n <= |who| < |run|
  {
    forall i :: 0 <= i < n ==> !MisuseAt(run[i], who[i])
  }

  // ---------------------------------------------------------------- the invariant

  predicate OwnsMutex(h: Th) {
    match h.pc
    case LkRaw => true
    case LkHolder => true
    case DrHolder => true
    case DrMutex => true
    case WtAsleep(_, _) => false
    case WtSetCount(_, _) => true
    case WtSetHolder(_, _) => true
    case RlCount => true
    case RlHolder => true
    case LkCount => true
    case _ => h.live > 0
  }

  /** The holder word names the thread. */
  predicate Named(h: Th) {
    match h.pc
    case LkRaw => false
    case LkHolder => false
    case LkCount => true
    case DrHolder => true
    case DrMutex => false
    case WtSleep(_, _) => false
    case WtAsleep(_, _) => false
    case WtSetCount(_, _) => false
    case WtSetHolder(_, _) => false
    case UnMutex(_) => false
    case RlCount => false
    case RlHolder => false
    case _ => h.live > 0
  }

  /** The value of the count while the thread owns the mutex: its guards, except inside an operation
      that has put the count aside. */
  function Count(h: Th): nat {
    match h.pc
    case WtHolder(_) => 0
    case WtSleep(_, _) => 0
    case WtSetCount(_, _) => 0
    case UnHolder(_) => 0
    case UnMutex(_) => 0
    case RlHolder => if h.saved != [] then h.saved[|h.saved| - 1] else 0
    case _ => h.live
  }

  predicate Sane(t: nat, h: Th) {
    && h.live < USIZE
    && h.held == h.saved
    && (forall i :: 0 <= i < |h.saved| ==> 0 < h.saved[i] < USIZE)
    && match h.pc
       case LkLoad => h.live + 1 < USIZE
       case LkCount => h.live + 1 < USIZE
       case LkMutex(_) => h.live == 0
       case LkRaw => h.live == 0
       case LkHolder => h.live == 0
       case DrCount => h.live > 0
       case DrHolder => h.live == 0
       case DrMutex => h.live == 0
       case WtHolder(n) => n == h.live > 0
       case WtSleep(n, x) => n == h.live > 0 && x == Some(t)
       case WtAsleep(n, x) => n == h.live > 0 && x == Some(t)
       case WtSetCount(n, x) => n == h.live > 0 && x == Some(t)
       case WtSetHolder(n, x) => n == h.live > 0 && x == Some(t)
       case UnCount(n) => h.live > 0 ==> n == h.live
       case UnHolder(n) => n == h.live > 0
       case UnMutex(n) => n == h.live > 0
       case RlMutex => h.saved != []
       case RlCount => h.saved != [] && h.live == 0
       case RlHolder => h.saved != [] && h.live == 0
       case _ => true
  }

  predicate ThInv(w: Words, t: nat, h: Th) {
    && Sane(t, h)
    && (w.mutex == Some(t) <==> OwnsMutex(h))
    && (w.holder == Some(t) <==> Named(h))
    && (w.mutex == Some(t) ==> w.rec == Count(h))
  }

  predicate Inv(m: Monitor) {
    && (m.w.mutex.Some? ==> m.w.mutex.value < |m.th|)
    && (m.w.holder.Some? ==> m.w.holder.value < |m.th|)
    && (m.w.mutex == None ==> m.w.rec == 0)
    && forall t :: 0 <= t < |m.th| ==> ThInv(m.w, t, m.th[t])
  }

  lemma EdgeKeepsSane(w: Words, t: nat, h: Th, w': Words, h': Th)
    requires Edge(w, t, h, w', h') && ThInv(w, t, h) && !Misuse(h)
    ensures Sane(t, h')
  {
  }

  lemma EdgeKeepsWords(w: Words, t: nat, h: Th, w': Words, h': Th)
    requires Edge(w, t, h, w', h') && ThInv(w, t, h) && !Misuse(h) && (w.mutex == None ==> w.rec == 0)
    ensures w'.mutex == Some(t) <==> OwnsMutex(h')
    ensures w'.holder == Some(t) <==> Named(h')
    ensures w'.mutex == None ==> w'.rec == 0
  {
  }

  lemma EdgeKeepsCount(w: Words, t: nat, h: Th, w': Words, h': Th)
    requires Edge(w, t, h, w', h') && ThInv(w, t, h) && !Misuse(h) && (w.mutex == None ==> w.rec == 0)
    ensures w'.mutex == Some(t) ==> w'.rec == Count(h')
  {
  }

  /** A thread writes only what it has a right to: the free mutex or its own, the holder word and
      the count while it owns the mutex. */
  lemma EdgeFrame(w: Words, t: nat, h: Th, w': Words, h': Th)
    requires Edge(w, t, h, w', h') && ThInv(w, t, h) && !Misuse(h)
    ensures w'.mutex != w.mutex ==> (w.mutex == None && w'.mutex == Some(t)) || (w.mutex == Some(t) && w'.mutex == None)
    ensures w'.holder != w.holder ==> w.mutex == Some(t) && (w'.holder == Some(t) || w'.holder == None)
    ensures w'.rec != w.rec ==> w.mutex == Some(t)
  {
  }

  lemma StepKeeps(m: Monitor, m': Monitor, t: nat)
    requires Step(m, m', t) && Inv(m) && !MisuseAt(m, t)
    ensures Inv(m')
  {
    hide Edge, Misuse;
    EdgeKeepsSane(m.w, t, m.th[t], m'.w, m'.th[t]);
    EdgeKeepsWords(m.w, t, m.th[t], m'.w, m'.th[t]);
    EdgeKeepsCount(m.w, t, m.th[t], m'.w, m'.th[t]);
    EdgeFrame(m.w, t, m.th[t], m'.w, m'.th[t]);
    forall q | 0 <= q < |m'.th| && q != t ensures ThInv(m'.w, q, m'.th[q]) {
      OtherKeeps(m.w, t, m.th[t], m'.w, q, m.th[q]);
    }
  }

  lemma OtherKeeps(w: Words, t: nat, h: Th, w': Words, q: nat, g: Th)
    requires q != t && ThInv(w, t, h) && ThInv(w, q, g)
    requires w'.mutex != w.mutex ==>
             (w.mutex == None && w'.mutex == Some(t)) || (w.mutex == Some(t) && w'.mutex == None)
    requires w'.holder != w.holder ==> w.mutex == Some(t) && (w'.holder == Some(t) || w'.holder == None)
    requires w'.rec != w.rec ==> w.mutex == Some(t)
    ensures ThInv(w', q, g)
  {
  }

  lemma {:induction false} RunInv(run: seq<Monitor>, who: seq<nat>, i: nat)
    requires IsRun(run, who) && i < |run| && Disciplined(run, who, i)
    ensures Inv(run[i])
  {
    hide Step, MisuseAt;
    if i > 0 {
      RunInv(run, who, i - 1);
      StepKeeps(run[i - 1], run[i], who[i - 1]);
    }
  }

  // ---------------------------------------------------------------- what a user of the monitor sees

  /** A non-zero holder word names the thread that owns the mutex. */
  lemma HolderOwnsMutex(run: seq<Monitor>, who: seq<nat>, i: nat)
    requires IsRun(run, who) && i < |run| && Disciplined(run, who, i)
    ensures run[i].w.holder.Some? ==> run[i].w.mutex == run[i].w.holder
  {
    RunInv(run, who, i);
    if run[i].w.holder.Some? {
      var t := run[i].w.holder.value;
      assert ThInv(run[i].w, t, run[i].th[t]);
    }
  }

  /** The levels of the lock a thread has, as opposed to those it gave up for a wait. */
  function Holding(h: Th): nat {
    if h.pc.WtAsleep? || h.pc.WtSetCount? || h.pc.WtSetHolder? then 0 else h.live
  }

  /** Outside the operations, a thread with live guards owns the mutex, is named by the holder word,
      and the count is the number of its live guards; no other thread has the lock at any level. */
  lemma CountIsLiveGuards(run: seq<Monitor>, who: seq<nat>, i: nat, t: nat)
    requires IsRun(run, who) && i < |run| && Disciplined(run, who, i)
    requires t < |run[i].th| && run[i].th[t].pc == Out && run[i].th[t].live > 0
    ensures run[i].w == Words(Some(t), Some(t), run[i].th[t].live)
    ensures forall q :: 0 <= q < |run[i].th| && q != t ==> Holding(run[i].th[q]) == 0
  {
    RunInv(run, who, i);
    assert ThInv(run[i].w, t, run[i].th[t]);
    forall q | 0 <= q < |run[i].th| && q != t ensures Holding(run[i].th[q]) == 0 {
      assert ThInv(run[i].w, q, run[i].th[q]);
      HoldingOwns(q, run[i].th[q]);
    }
  }

  lemma HoldingOwns(t: nat, h: Th)
    requires Sane(t, h)
    ensures Holding(h) > 0 ==> OwnsMutex(h)
  {
  }

  /** The mutex is released by the drop of the last guard, by a wait or by `unlocked_no_handshake`,
      which give up every level, and by a retry of `lock_with_handshake`; never otherwise. */
  lemma ReleasedExactly(run: seq<Monitor>, who: seq<nat>, i: nat)
    requires IsRun(run, who) && i < |who| && Disciplined(run, who, i + 1)
    requires run[i].w.mutex.Some? && run[i + 1].w.mutex == None
    ensures var t := who[i]; var h, h' := run[i].th[t], run[i + 1].th[t];
            && run[i].w.mutex == Some(t) && Holding(h') == 0 && run[i + 1].w == Words(None, None, 0)
            && (h.pc.DrMutex? || h.pc.WtSleep? || h.pc.UnMutex? || h.pc.LkRaw?)
  {
    RunInv(run, who, i);
    RunInv(run, who, i + 1);
    var t := who[i];
    assert Step(run[i], run[i + 1], t);
    assert ThInv(run[i].w, t, run[i].th[t]);
    ReleasingEdge(run[i].w, t, run[i].th[t], run[i + 1].w, run[i + 1].th[t]);
    if run[i + 1].w.holder.Some? {
      var q := run[i + 1].w.holder.value;
      HolderOwnsMutex(run, who, i + 1);
    }
  }

  lemma ReleasingEdge(w: Words, t: nat, h: Th, w': Words, h': Th)
    requires Edge(w, t, h, w', h') && ThInv(w, t, h) && w.mutex.Some? && w'.mutex == None
    ensures w.mutex == Some(t) && Holding(h') == 0 && (h.pc.DrMutex? || h.pc.WtSleep? || h.pc.UnMutex? || h.pc.LkRaw?)
  {
  }

  /** The thread is outside the operations, or asleep in a wait. */
  predicate AtRest(h: Th) {
    h.pc.Out? || h.pc.WtAsleep?
  }

  /** Both words name exactly the thread that has the lock at some level: a thread at rest that has
      dropped its last guard, or that waits, or that is in an unlocked scope, has given them up. */
  predicate Released(m: Monitor) {
    forall t :: 0 <= t < |m.th| && AtRest(m.th[t]) ==>
      (m.w.mutex == Some(t) <==> Holding(m.th[t]) > 0) && (m.w.holder == Some(t) <==> Holding(m.th[t]) > 0)
  }

  lemma InvIsReleased(m: Monitor)
    requires Inv(m)
    ensures Released(m)
  {
    forall t | 0 <= t < |m.th| && AtRest(m.th[t])
      ensures (m.w.mutex == Some(t) <==> Holding(m.th[t]) > 0) && (m.w.holder == Some(t) <==> Holding(m.th[t]) > 0)
    {
      assert ThInv(m.w, t, m.th[t]);
    }
  }

  /** The mutex is with a thread at rest exactly while it has the lock, so it is given up with the last
      guard, for a wait, and for an unlocked scope. */
  lemma GivenUpExactly(run: seq<Monitor>, who: seq<nat>, i: nat, t: nat)
    requires IsRun(run, who) && i < |run| && Disciplined(run, who, i) && t < |run[i].th| && AtRest(run[i].th[t])
    ensures run[i].w.mutex == Some(t) <==> Holding(run[i].th[t]) > 0
    ensures run[i].w.holder == Some(t) <==> Holding(run[i].th[t]) > 0
  {
    RunInv(run, who, i);
    InvIsReleased(run[i]);
  }

  /** When every thread is at rest without the lock, the monitor is as it was at the start. */
  lemma IdleMonitorIsFree(run: seq<Monitor>, who: seq<nat>, i: nat)
    requires IsRun(run, who) && i < |run| && Disciplined(run, who, i)
    requires forall t :: 0 <= t < |run[i].th| ==> AtRest(run[i].th[t]) && Holding(run[i].th[t]) == 0
    ensures run[i].w == Words(None, None, 0)
  {
    RunInv(run, who, i);
    InvIsReleased(run[i]);
  }

  // ---------------------------------------------------------------- what an operation comes to

  /** The guards a thread will have when the operation it is in is over: those of the innermost scope,
      and those from before each scope. */
  function Ahead(h: Th): (int, seq<nat>) {
    match h.pc
    case LkLoad => (h.live + 1, h.held)
    case LkMutex(_) => (h.live + 1, h.held)
    case LkRaw => (h.live + 1, h.held)
    case LkHolder => (h.live + 1, h.held)
    case LkCount => (h.live + 1, h.held)
    case DrCount => (h.live - 1, h.held)
    case SdCount(j) => (h.live, if j < |h.held| && h.held[j] > 0 then h.held[j := h.held[j] - 1] else h.held)
    case UnLoad => (0, h.held + [h.live])
    case UnCount(_) => (0, h.held + [h.live])
    case UnHolder(_) => (0, h.held + [h.live])
    case UnMutex(_) => (0, h.held + [h.live])
    case RlMutex => if h.held == [] then (h.live, []) else (h.live + h.held[|h.held| - 1], h.held[..|h.held| - 1])
    case RlCount => if h.held == [] then (h.live, []) else (h.live + h.held[|h.held| - 1], h.held[..|h.held| - 1])
    case RlHolder => if h.held == [] then (h.live, []) else (h.live + h.held[|h.held| - 1], h.held[..|h.held| - 1])
    case _ => (h.live, h.held)
  }

  /** Inside an operation, no step of the thread changes where it is heading. */
  lemma EdgeKeepsAhead(w: Words, t: nat, h: Th, w': Words, h': Th)
    requires Edge(w, t, h, w', h') && !h.pc.Out?
    ensures Ahead(h') == Ahead(h)
  {
  }

  /** Thread `t` is in an operation from `i` on, and out of it at `j`. */
  predicate Spans(run: seq<Monitor>, i: nat, j: nat, t: nat) {
    && i < j < |run| && (forall k :: i <= k <= j ==> t < |run[k].th|)
    && (forall k :: i <= k < j ==> !run[k].th[t].pc.Out?) && run[j].th[t].pc.Out?
  }

  lemma {:induction false} HeadsThere(run: seq<Monitor>, who: seq<nat>, i: nat, k: nat, j: nat, t: nat)
    requires IsRun(run, who) && Spans(run, i, j, t) && i <= k <= j
    ensures Ahead(run[k].th[t]) == Ahead(run[i].th[t])
  {
    hide Ahead, Edge;
    if i < k {
      HeadsThere(run, who, i, k - 1, j, t);
      assert Step(run[k - 1], run[k], who[k - 1]);
      if who[k - 1] == t { EdgeKeepsAhead(run[k - 1].w, t, run[k - 1].th[t], run[k].w, run[k].th[t]); }
    }
  }

  /** In every run, a lock that returns has added one guard. */
  lemma LockAddsOne(run: seq<Monitor>, who: seq<nat>, i: nat, j: nat, t: nat)
    requires IsRun(run, who) && Spans(run, i, j, t) && run[i].th[t].pc == LkLoad
    ensures run[j].th[t].live == run[i].th[t].live + 1 && run[j].th[t].held == run[i].th[t].held
  {
    HeadsThere(run, who, i, j, j, t);
  }

  /** A drop that returns has taken one away, of the innermost scope or of the one the guard is from. */
  lemma DropTakesOne(run: seq<Monitor>, who: seq<nat>, i: nat, j: nat, t: nat)
    requires IsRun(run, who) && Spans(run, i, j, t)
    ensures run[i].th[t].pc == DrCount ==>
              run[j].th[t].live + 1 == run[i].th[t].live && run[j].th[t].held == run[i].th[t].held
    ensures run[i].th[t].pc.SdCount? ==> var d := run[i].th[t].pc.j;
              && d < |run[i].th[t].held| && run[i].th[t].held[d] > 0 && run[j].th[t].live == run[i].th[t].live
              && run[j].th[t].held == run[i].th[t].held[d := run[i].th[t].held[d] - 1]
  {
    HeadsThere(run, who, i, j, j, t);
    if run[i].th[t].pc.SdCount? { SuspendedThere(run, who, i, j, t); }
  }

  lemma {:induction false} SuspendedThere(run: seq<Monitor>, who: seq<nat>, i: nat, j: nat, t: nat)
    requires IsRun(run, who) && Spans(run, i, j, t) && run[i].th[t].pc.SdCount?
    ensures run[i].th[t].pc.j < |run[i].th[t].held| && run[i].th[t].held[run[i].th[t].pc.j] > 0
    decreases j - i
  {
    assert Step(run[i], run[i + 1], who[i]);
    if who[i] != t { SuspendedThere(run, who, i + 1, j, t); }
  }

  /** A wait that returns has left all guards in place. */
  lemma WaitKeepsAll(run: seq<Monitor>, who: seq<nat>, i: nat, j: nat, t: nat)
    requires IsRun(run, who) && Spans(run, i, j, t) && run[i].th[t].pc == WtCount
    ensures run[j].th[t].live == run[i].th[t].live && run[j].th[t].held == run[i].th[t].held
  {
    HeadsThere(run, who, i, j, j, t);
  }

  /** An unlocked scope begins with no guard of its own, and remembers those from before. */
  lemma ScopeBegins(run: seq<Monitor>, who: seq<nat>, i: nat, j: nat, t: nat)
    requires IsRun(run, who) && Spans(run, i, j, t) && run[i].th[t].pc == UnLoad
    ensures run[j].th[t].live == 0 && run[j].th[t].held == run[i].th[t].held + [run[i].th[t].live]
  {
    HeadsThere(run, who, i, j, j, t);
  }

  /** When it ends, they are back. */
  lemma ScopeEnds(run: seq<Monitor>, who: seq<nat>, i: nat, j: nat, t: nat)
    requires IsRun(run, who) && Spans(run, i, j, t) && run[i].th[t].pc == RlMutex && run[i].th[t].held != []
    ensures var before := run[i].th[t];
            && run[j].th[t].live == before.live + before.held[|before.held| - 1]
            && run[j].th[t].held == before.held[..|before.held| - 1]
  {
    HeadsThere(run, who, i, j, j, t);
  }

  // ---------------------------------------------------------------- the lock it refines

  /** A re-entrant lock: its owner, the owner's depth, and the depths each thread has given up. */
  datatype Lock = Lock(owner: Option<nat>, depth: int, given: seq<seq<nat>>)

  predicate LockStep(k: Lock, k': Lock, t: nat) {
    && t < |k.given| == |k'.given|
    && (forall q :: 0 <= q < |k.given| && q != t ==> k'.given[q] == k.given[q])
    && (|| k' == k
        // take
        || ((k.owner == None || k.owner == Some(t)) && k' == Lock(Some(t), k.depth + 1, k.given))
        // give back one level
        || (k.owner == Some(t) && k' == Lock(if k.depth == 1 then None else Some(t), k.depth - 1, k.given))
        // give everything up, remembering the depth
        || (k.owner == Some(t) && k.depth >= 0 && k' == Lock(None, 0, k.given[t := k.given[t] + [k.depth]]))
        // take back what was last given up
        || (k.owner == None && k.given[t] != []
            && k' == Lock(Some(t), k.given[t][|k.given[t]| - 1], k.given[t := k.given[t][..|k.given[t]| - 1]])))
  }

  /** What a thread has given up: the guards from before each unlocked scope, and those it waits with. */
  function Given(h: Th): seq<nat> {
    if h.pc.WtAsleep? || h.pc.WtSetCount? || h.pc.WtSetHolder? then h.held + [h.live] else h.held
  }

  predicate Abstracts(m: Monitor, k: Lock) {
    && |k.given| == |m.th|
    && (forall t :: 0 <= t < |m.th| ==> k.given[t] == Given(m.th[t]))
    && (k.owner.Some? ==> k.owner.value < |m.th| && k.depth > 0)
    && (k.owner == None ==> k.depth == 0)
    && (forall t :: 0 <= t < |m.th| ==> Holding(m.th[t]) == if k.owner == Some(t) then k.depth else 0)
    && WordsNameOwner(m, k)
  }

  /** Whoever is at rest has the mutex, and is named by the holder word, exactly if the lock is his. */
  predicate WordsNameOwner(m: Monitor, k: Lock) {
    forall t :: 0 <= t < |m.th| && AtRest(m.th[t]) ==>
      (m.w.mutex == Some(t) <==> k.owner == Some(t)) && (m.w.holder == Some(t) <==> k.owner == Some(t))
  }

  /** Every step of the monitor is a step of the re-entrant lock, or invisible: taking and dropping
      guards moves the depth by one, and a wait or an unlocked scope gets back the depth it gave up. */
  lemma RefinesLock(m: Monitor, m': Monitor, t: nat, k: Lock) returns (k': Lock)
    requires Step(m, m', t) && Inv(m) && !MisuseAt(m, t) && Abstracts(m, k)
    ensures Abstracts(m', k') && LockStep(k, k', t)
  {
    hide Inv, Holding, Given, Edge, MisuseAt, AtRest;
    var h, h' := m.th[t], m'.th[t];
    OwnStep(m, m', t);
    StepKeeps(m, m', t);
    InvIsReleased(m');
    k' := Lock(if Holding(h') > 0 then Some(t) else if Holding(h) > 0 then None else k.owner,
               if Holding(h') > 0 then Holding(h') else if Holding(h) > 0 then 0 else k.depth,
               k.given[t := Given(h')]);
    if k.owner.Some? { assert Holding(m.th[k.owner.value]) > 0; }
  }

  /** So a disciplined run of the monitor is a run of the re-entrant lock. */
  lemma {:induction false} RunRefinesLock(run: seq<Monitor>, who: seq<nat>) returns (locks: seq<Lock>)
    requires IsRun(run, who) && Disciplined(run, who, |who|)
    ensures Refines(run, who, locks)
  {
    hide Step, LockStep, MisuseAt, Abstracts;
    var n := |who|;
    if n == 0 {
      locks := [Lock(None, 0, seq(|run[0].th|, _ => []))];
      StartAbstracts(run[0]);
    } else {
      locks := RunRefinesLock(run[..n], who[..n - 1]);
      RunInv(run, who, n - 1);
      var k := RefinesLock(run[n - 1], run[n], who[n - 1], locks[n - 1]);
      locks := locks + [k];
    }
  }

  ghost predicate Refines(run: seq<Monitor>, who: seq<nat>, locks: seq<Lock>)
    requires |run| == |who| + 1
  {
    && |locks| == |run| && locks[0].owner == None
    && (forall i :: 0 <= i < |run| ==> Abstracts(run[i], locks[i]))
    && (forall i :: 0 <= i < |who| ==> LockStep(locks[i], locks[i + 1], who[i]))
  }

  lemma StartAbstracts(m: Monitor)
    requires Start(m)
    ensures Abstracts(m, Lock(None, 0, seq(|m.th|, _ => [])))
  {
  }

  /** What one step does to the thread's levels and to what it has given up. */
  lemma OwnStep(m: Monitor, m': Monitor, t: nat)
    requires Step(m, m', t) && Inv(m) && !MisuseAt(m, t)
    ensures Moved(Holding(m.th[t]), Given(m.th[t]), Holding(m'.th[t]), Given(m'.th[t]))
    ensures Holding(m'.th[t]) > Holding(m.th[t]) ==> forall q :: 0 <= q < |m.th| && q != t ==> Holding(m.th[q]) == 0
  {
    var h, h' := m.th[t], m'.th[t];
    assert ThInv(m.w, t, h);
    OwnEdge(m.w, t, h, m'.w, h');
    if Holding(h') > Holding(h) {
      forall q | 0 <= q < |m.th| && q != t ensures Holding(m.th[q]) == 0 {
        assert ThInv(m.w, q, m.th[q]);
        HoldingOwns(q, m.th[q]);
      }
    }
  }

  predicate Moved(live: nat, given: seq<nat>, live': nat, given': seq<nat>) {
    || (live' == live && given' == given)
    || (live' == live + 1 && given' == given)
    || (live' + 1 == live && given' == given)
    || (live' == 0 < live && given' == given + [live])
    || (live == 0 < live' && given == given' + [live'])
  }

  lemma OwnEdge(w: Words, t: nat, h: Th, w': Words, h': Th)
    requires Edge(w, t, h, w', h') && ThInv(w, t, h) && !Misuse(h)
    ensures Moved(Holding(h), Given(h), Holding(h'), Given(h'))
    ensures Holding(h') > Holding(h) ==> w.mutex == Some(t)
  {
    if h.pc.RlHolder? { assert h.held == h.held[..|h.held| - 1] + [h.held[|h.held| - 1]]; }
  }

  // ---------------------------------------------------------------- exactly when

  /** The count is zero while the mutex is free, and else what its owner's guards come to. */
  predicate Truthful(m: Monitor) {
    && (m.w.mutex == None ==> m.w.rec == 0)
    && forall t :: 0 <= t < |m.th| && m.w.mutex == Some(t) ==> m.w.rec == Count(m.th[t])
  }

  /** The thread's next step stores to the holder word or to the count. */
  predicate Writes(h: Th) {
    match h.pc
    case Out => false
    case LkLoad => false
    case LkMutex(_) => false
    case LkRaw => false
    case DrMutex => false
    case WtSleep(_, _) => false
    case WtAsleep(_, _) => false
    case UnLoad => false
    case UnMutex(_) => false
    case RlMutex => false
    case _ => true
  }

  /** Who writes the holder word or the count owns the mutex. */
  predicate Lawful(m: Monitor, t: nat) {
    t < |m.th| && Writes(m.th[t]) ==> m.w.mutex == Some(t)
  }

  ghost predicate KeepsItsWord(run: seq<Monitor>, who: seq<nat>)
    requires |run| == |who| + 1
  {
    && (forall i :: 0 <= i < |run| ==> Truthful(run[i]) && Released(run[i]))
    && (forall i :: 0 <= i < |who| ==> Lawful(run[i], who[i]))
    && exists locks :: Refines(run, who, locks)
  }

  /** A run of the monitor is a run of the re-entrant lock, with a count that is true throughout and
      written by the owner alone, and a mutex that is given up whenever the lock is, exactly if no guard
      from before an unlocked scope is used in it. */
  lemma KeepsItsWordExactly(run: seq<Monitor>, who: seq<nat>)
    requires IsRun(run, who)
    ensures KeepsItsWord(run, who) <==> Disciplined(run, who, |who|)
  {
    hide Step, MisuseAt, Truthful, Released, Lawful, Abstracts, LockStep;
    if Disciplined(run, who, |who|) {
      var locks := RunRefinesLock(run, who);
      forall i | 0 <= i < |run| ensures Truthful(run[i]) && Released(run[i]) && (i < |who| ==> Lawful(run[i], who[i])) {
        RunInv(run, who, i);
        InvIsTruthful(run[i]);
        InvIsReleased(run[i]);
        if i < |who| { InvIsLawful(run[i], who[i]); }
      }
    } else {
      var i := FirstMisuse(run, who);
      RunInv(run, who, i);
      MisuseShows(run[i], run[i + 1], who[i]);
    }
  }

  lemma InvIsTruthful(m: Monitor)
    requires Inv(m)
    ensures Truthful(m)
  {
    forall t | 0 <= t < |m.th| && m.w.mutex == Some(t) ensures m.w.rec == Count(m.th[t]) {
      assert ThInv(m.w, t, m.th[t]);
    }
  }

  lemma InvIsLawful(m: Monitor, t: nat)
    requires Inv(m) && !MisuseAt(m, t)
    ensures Lawful(m, t)
  {
    if t < |m.th| { assert ThInv(m.w, t, m.th[t]); }
  }

  lemma FirstMisuse(run: seq<Monitor>, who: seq<nat>) returns (i: nat)
    requires |run| == |who| + 1 && !Disciplined(run, who, |who|)
    ensures i < |who| && Disciplined(run, who, i) && MisuseAt(run[i], who[i])
  {
    i := 0;
    while !MisuseAt(run[i], who[i])
      invariant i < |who| && Disciplined(run, who, i) && exists j :: i <= j < |who| && MisuseAt(run[j], who[j])
      decreases |who| - i
    {
      i := i + 1;
    }
  }

  /** The first such use shows at once. */
  lemma MisuseShows(m: Monitor, m': Monitor, t: nat)
    requires Step(m, m', t) && Inv(m) && MisuseAt(m, t)
    ensures !Truthful(m') || !Lawful(m, t)
  {
    assert ThInv(m.w, t, m.th[t]);
    if m.th[t].pc.SdCount? && m.w.mutex.Some? {
      var q := m.w.mutex.value;
      assert ThInv(m.w, q, m.th[q]);
      assert m'.w.rec != m.w.rec && Count(m'.th[q]) == Count(m.th[q]);
    }
  }
}

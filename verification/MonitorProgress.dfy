/** Operations on the re-entrant monitor come to their end, and a wait does let others in. */
module MonitorProgress {
  import opened Options
  import opened ReentrantMonitor

  /** Accesses to the end of the operation, when nothing is tried again. */
  function Rank(p: MPc): nat {
    match p
    case Out => 0
    case LkLoad => 5
    case LkMutex(_) => 4
    case LkRaw => 3
    case LkHolder => 2
    case LkCount => 1
    case DrCount => 3
    case SdCount(_) => 3
    case DrHolder => 2
    case DrMutex => 1
    case WtCount => 6
    case WtHolder(_) => 5
    case WtSleep(_, _) => 4
    case WtAsleep(_, _) => 3
    case WtSetCount(_, _) => 2
    case WtSetHolder(_, _) => 1
    case UnLoad => 4
    case UnCount(_) => 3
    case UnHolder(_) => 2
    case UnMutex(_) => 1
    case RlMutex => 3
    case RlCount => 2
    case RlHolder => 1
  }

  /** `lock_with_handshake` has got the mutex while the thread was to block, and gives it up again. */
  predicate Retries(m: Monitor, m': Monitor, t: nat) {
    t < |m.th| && t < |m'.th| && m.th[t].pc == LkRaw && m'.th[t].pc.LkMutex?
  }

  /** Every other step of an operation brings its end nearer. */
  lemma EdgeGoesDown(w: Words, t: nat, h: Th, w': Words, h': Th)
    requires Edge(w, t, h, w', h') && !h.pc.Out?
    ensures if h.pc == LkRaw && h'.pc.LkMutex? then Rank(h'.pc) == Rank(h.pc) + 1 else Rank(h'.pc) < Rank(h.pc)
  {
  }

  /** Steps that thread `t` takes from `i` to `j`, less two for each time it tries again. */
  function Headway(run: seq<Monitor>, who: seq<nat>, i: nat, j: nat, t: nat): int
    requires i <= j < |run| && j <= |who|
    decreases j
  {
    if i == j then 0
    else Headway(run, who, i, j - 1, t)
         + (if who[j - 1] == t then 1 else 0) - if Retries(run[j - 1], run[j], t) && who[j - 1] == t then 2 else 0
  }

  /** In every run, an operation is over after at most `Rank` steps of its thread and two more for each
      time `lock_with_handshake` has to try again, whatever the others do. */
  lemma {:induction false} OperationEnds(run: seq<Monitor>, who: seq<nat>, i: nat, j: nat, t: nat)
    requires IsRun(run, who) && i <= j < |run| && t < |run[i].th|
    requires forall k :: i <= k < j ==> t < |run[k].th| && !run[k].th[t].pc.Out?
    ensures t < |run[j].th| && Rank(run[j].th[t].pc) + Headway(run, who, i, j, t) <= Rank(run[i].th[t].pc)
    decreases j
  {
    hide Edge, Rank;
    if i < j {
      OperationEnds(run, who, i, j - 1, t);
      assert Step(run[j - 1], run[j], who[j - 1]);
      if who[j - 1] == t { EdgeGoesDown(run[j - 1].w, t, run[j - 1].th[t], run[j].w, run[j].th[t]); }
    }
  }

  // ---------------------------------------------------------------- there is always a step

  /** A thread uses the guards it has. */
  predicate HasGuards(h: Th) {
    && |h.saved| == |h.held|
    && (h.pc.DrCount? ==> h.live > 0)
    && (h.pc.SdCount? ==> h.pc.j < |h.held| && h.held[h.pc.j] > 0)
    && (h.pc.RlMutex? || h.pc.RlCount? || h.pc.RlHolder? ==> h.saved != [])
  }

  lemma EdgeKeepsGuards(w: Words, t: nat, h: Th, w': Words, h': Th)
    requires Edge(w, t, h, w', h') && HasGuards(h)
    ensures HasGuards(h')
  {
  }

  lemma {:induction false} RunHasGuards(run: seq<Monitor>, who: seq<nat>, i: nat, t: nat)
    requires IsRun(run, who) && i < |run| && t < |run[i].th|
    ensures HasGuards(run[i].th[t])
  {
    hide Edge;
    if i > 0 {
      assert Step(run[i - 1], run[i], who[i - 1]);
      RunHasGuards(run, who, i - 1, t);
      if who[i - 1] == t { EdgeKeepsGuards(run[i - 1].w, t, run[i - 1].th[t], run[i].w, run[i].th[t]); }
    }
  }

  /** The thread is about to take the mutex. */
  predicate TakesMutex(p: MPc) {
    p.LkMutex? || p.WtAsleep? || p.RlMutex?
  }

  /** A thread in an operation can go on, unless it is about to take the mutex and somebody has it. */
  lemma OperationGoesOn(run: seq<Monitor>, who: seq<nat>, i: nat, t: nat) returns (next: Monitor)
    requires IsRun(run, who) && i < |run| && t < |run[i].th| && !run[i].th[t].pc.Out?
    requires TakesMutex(run[i].th[t].pc) ==> run[i].w.mutex == None
    ensures Step(run[i], next, t)
  {
    RunHasGuards(run, who, i, t);
    hide IsRun;
    var w, h := run[i].w, run[i].th[t];
    var w', h' := w, h;
    match h.pc {
      case LkLoad => h' := h.(pc := if w.holder == Some(t) then LkCount else LkMutex(false));
      case LkMutex(handshake) => w', h' := w.(mutex := Some(t)), h.(pc := if handshake then LkRaw else LkHolder);
      case LkRaw => h' := h.(pc := LkHolder);
      case LkHolder => w', h' := w.(holder := Some(t)), h.(pc := LkCount);
      case LkCount => w', h' := w.(rec := Inc(w.rec)), h.(pc := Out, live := h.live + 1);
      case DrCount =>
        w' := w.(rec := Dec(w.rec));
        h' := h.(pc := if w.rec == 1 then DrHolder else Out, live := h.live - 1);
      case SdCount(j) =>
        w' := w.(rec := Dec(w.rec));
        h' := h.(pc := if w.rec == 1 then DrHolder else Out, held := h.held[j := h.held[j] - 1]);
      case DrHolder => w', h' := w.(holder := None), h.(pc := DrMutex);
      case DrMutex => w', h' := w.(mutex := None), h.(pc := Out);
      case WtCount => w', h' := w.(rec := 0), h.(pc := WtHolder(w.rec));
      case WtHolder(n) => w', h' := w.(holder := None), h.(pc := WtSleep(n, w.holder));
      case WtSleep(n, x) => w', h' := w.(mutex := None), h.(pc := WtAsleep(n, x));
      case WtAsleep(n, x) => w', h' := w.(mutex := Some(t)), h.(pc := WtSetCount(n, x));
      case WtSetCount(n, x) => w', h' := w.(rec := n), h.(pc := WtSetHolder(n, x));
      case WtSetHolder(n, x) => w', h' := w.(holder := x), h.(pc := Out);
      case UnLoad => h' := h.(pc := UnCount(w.rec));
      case UnCount(n) => w', h' := w.(rec := 0), h.(pc := UnHolder(n));
      case UnHolder(n) => w', h' := w.(holder := None), h.(pc := UnMutex(n));
      case UnMutex(n) =>
        w' := w.(mutex := None);
        h' := h.(pc := Out, live := 0, held := h.held + [h.live], saved := h.saved + [n]);
      case RlMutex => w', h' := w.(mutex := Some(t)), h.(pc := RlCount);
      case RlCount => w', h' := w.(rec := h.saved[|h.saved| - 1]), h.(pc := RlHolder);
      case RlHolder =>
        w' := w.(holder := Some(t));
        h' := Th(Out, h.live + h.held[|h.held| - 1], h.held[..|h.held| - 1], h.saved[..|h.saved| - 1]);
    }
    next := Monitor(w', run[i].th[t := h']);
  }

  // ---------------------------------------------------------------- waiting

  predicate BeforeSleep(p: MPc) {
    p.WtCount? || p.WtHolder? || p.WtSleep?
  }

  /** Thread `t` is asleep at `k` and has left the mutex free. */
  predicate AsleepAt(run: seq<Monitor>, k: nat, t: nat) {
    k < |run| && t < |run[k].th| && run[k].th[t].pc.WtAsleep? && run[k].w.mutex == None
  }

  lemma {:induction false} SleepsOnTheWay(run: seq<Monitor>, who: seq<nat>, i: nat, m: nat, j: nat, t: nat)
    requires IsRun(run, who) && Spans(run, i, j, t) && run[i].th[t].pc == WtCount && i <= m <= j
    ensures BeforeSleep(run[m].th[t].pc) || exists k: nat :: i < k <= m && AsleepAt(run, k, t)
    decreases m
  {
    hide Edge;
    if i < m {
      SleepsOnTheWay(run, who, i, m - 1, j, t);
      assert Step(run[m - 1], run[m], who[m - 1]);
      if who[m - 1] == t && BeforeSleep(run[m - 1].th[t].pc) {
        EdgeToSleep(run[m - 1].w, t, run[m - 1].th[t], run[m].w, run[m].th[t]);
        assert BeforeSleep(run[m].th[t].pc) || AsleepAt(run, m, t);
      }
    }
  }

  lemma EdgeToSleep(w: Words, t: nat, h: Th, w': Words, h': Th)
    requires Edge(w, t, h, w', h') && BeforeSleep(h.pc)
    ensures BeforeSleep(h'.pc) || (h'.pc.WtAsleep? && w'.mutex == None)
  {
  }

  /** A wait that returns has been asleep with the mutex free. */
  lemma WaitLetsGo(run: seq<Monitor>, who: seq<nat>, i: nat, j: nat, t: nat)
    requires IsRun(run, who) && Spans(run, i, j, t) && run[i].th[t].pc == WtCount
    ensures exists k: nat :: i < k < j && AsleepAt(run, k, t)
  {
    SleepsOnTheWay(run, who, i, j, j, t);
    var k: nat :| i < k <= j && AsleepAt(run, k, t);
    assert k < j;
  }
}

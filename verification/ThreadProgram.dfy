/** One managed thread, its monitor, and the code that is run on it and against it.

    `Shared` is the part of a thread that others can see.  Code is given by its control flow: an
    edge says that, at a program counter and seeing some shared state, the next atomic action is
    `act` and control continues at another program counter.  An action is one atomic access, or one
    lock, wait or notify on the thread's monitor. */
module ThreadProgram {
  import opened Options

  datatype Status = New | InManaged | InNative | InManagedToBlock | BlockedInNative | Terminated

  /** Adapter 0 is the GC adapter; the list may hold any number of others. */
  const GC: nat := 0

  /** Those who can hold a monitor or sleep on it. */
  datatype Who = Owner | Agent(id: nat)

  /** The agent that runs the collector. */
  const COLLECTOR: nat := 0

  datatype Shared = Shared(
    status: Status,
    req: seq<bool>,         // block requests, one per adapter
    blk: seq<bool>,         // blocked flags, one per adapter
    take: int,
    pending: bool,
    count: int,             // yieldpoints are enabled when this is 1
    about: bool,
    holder: Option<Who>,    // of the monitor
    depth: int,
    asleep: set<Who>)       // waiting on the monitor and not notified yet

  // ---------------------------------------------------------------- atomic actions

  datatype Action =
    | Skip
    | Acquire | Release | WaitOn | WakeUp(depth: nat) | Broadcast
    | StoreStatus(s: Status) | StoreReq(a: nat, v: bool) | StoreBlk(a: nat, v: bool)
    | StoreTake(n: int) | StorePending(v: bool) | AddCount(n: int) | StoreAbout

  /** The monitor is re-entrant; a waiter leaves its wait once it was notified and the mutex is free. */
  predicate Enabled(s: Shared, w: Who, act: Action) {
    match act
    case Acquire => s.holder == None || s.holder == Some(w)
    case WakeUp(_) => w !in s.asleep && s.holder == None
    case _ => true
  }

  function Put(s: seq<bool>, a: nat, v: bool): seq<bool> {
    if a < |s| then s[a := v] else s
  }

  function Get(s: seq<bool>, a: nat): bool {
    a < |s| && s[a]
  }

  function Do(s: Shared, w: Who, act: Action): Shared {
    match act
    case Skip => s
    case Acquire => s.(holder := Some(w), depth := s.depth + 1)
    case Release => if s.depth == 1 then s.(holder := None, depth := 0) else s.(depth := s.depth - 1)
    case WaitOn => s.(holder := None, depth := 0, asleep := s.asleep + {w})
    case WakeUp(d) => s.(holder := Some(w), depth := d)
    case Broadcast => s.(asleep := {})
    case StoreStatus(x) => s.(status := x)
    case StoreReq(a, v) => s.(req := Put(s.req, a, v))
    case StoreBlk(a, v) => s.(blk := Put(s.blk, a, v))
    case StoreTake(n) => s.(take := n)
    case StorePending(v) => s.(pending := v)
    case AddCount(n) => s.(count := s.count + n)
    case StoreAbout => s.(about := true)
  }

  predicate AnyBlocked(s: Shared) {
    exists a :: 0 <= a < |s.blk| && s.blk[a]
  }

  // ---------------------------------------------------------------- code of the thread itself

  /** What the thread does once it is in native state. */
  datatype Enter = IntoNative | IntoQueue(l: nat) | IntoRegistry

  /** What the thread does once it has left native state. */
  datatype Leave = AttemptOnly | IntoManaged | IntoRelock(l: nat)

  /** The caller of `check_block_no_save_context`. */
  datatype Ret = FromYieldpoint | FromSelfBlock | FromNative(k: Leave)

  datatype YpPc = YEnter | YDeferPending | YDeferClear | YLock | YTest | YClear | YUnlock
  datatype CbPc =
    | CLock | CAck(i: nat, had: bool) | CAckClear(i: nat) | CNotify | CTest | CWait | CSleep | CStatus | CUnlock
  datatype EnPc = NLoad | NCas | NLock | NStatus | NAck(i: nat, had: bool) | NAckClear(i: nat) | NNotify | NUnlock
  datatype LnPc = LLoad | LCas
  datatype HlPc = HQueued | HLoad | HCas | HDrop
  datatype RgPc = GQueued | GPush | GUnlock
  datatype SbPc = SLock(a: nat) | SRequest(a: nat) | SUnlock
  datatype EyPc = EAdd | ETest | EPending | ETake | EClear
  /** BSweep waits for the registry in `process_about_to_terminate`, BSwept holds it. */
  datatype BootPc = BEnable | BSweep | BSwept | BPark
  datatype TmPc = TLock | TAbout | TNotify | TUnlock

  datatype OPc =
    | Unborn
    | Bt(o: BootPc)                   // startoff, register_mutator_manual, up to the parked scope of add_thread
    | Run                             // managed code
    | Yp(y: YpPc)                     // yieldpoint
    | Cb(ret: Ret, b: CbPc)           // check_block_no_save_context
    | En(e: Enter, n: EnPc)           // enter_native
    | Native                          // native code
    | Ln(k: Leave, x: LnPc)           // attempt_leave_native_no_block, leave_native
    | Hl(l: nat, h: HlPc)             // lock_with_handshake_no_rec, past enter_native
    | Rg(native: bool, g: RgPc)       // add_thread, past the entry of its parked scope
    | Sb(s: SbPc)                     // block_unchecked on itself
    | Ey(boot: bool, v: EyPc)         // enable_yieldpoints
    | Tm(t: TmPc)                     // terminate
    | Dead

  /** Guards of its monitor the thread holds around `check_block`. */
  function BaseDepth(ret: Ret): nat {
    if ret.FromNative? then 0 else 1
  }

  function AfterEnter(e: Enter): OPc {
    match e
    case IntoNative => Native
    case IntoQueue(l) => Hl(l, HQueued)
    case IntoRegistry => Rg(true, GQueued)
  }

  function AfterLeave(k: Leave): OPc {
    match k
    case AttemptOnly => Run
    case IntoManaged => Run
    case IntoRelock(l) => En(IntoQueue(l), NLoad)
  }

  function AfterCheckBlock(ret: Ret): OPc {
    match ret
    case FromYieldpoint => Yp(YUnlock)
    case FromSelfBlock => Sb(SUnlock)
    case FromNative(k) => AfterLeave(k)
  }

  function AfterEnable(boot: bool): OPc {
    if boot then Bt(BSweep) else Run
  }

  /** A thread that executes managed code may take a yieldpoint, enter native code, queue on a lock,
      block itself, switch its yieldpoints off or on, or terminate. */
  predicate RunEdge(s: Shared, act: Action, p: OPc) {
    match act
    case Skip =>
      || p == Run
      || p == Yp(YEnter)
      || (p.En? && p.n == NLoad && !p.e.IntoRegistry?)
      || (p.Sb? && p.s.SLock? && p.s.a < |s.req|)
      || p == Ey(false, EAdd)
    case AddCount(n) => n == -1 && p == Run
    case Broadcast => p == Tm(TLock)
    case _ => false
  }

  predicate YieldpointEdge(s: Shared, y: YpPc, act: Action, p: OPc) {
    match y
    case YEnter => act == Skip && p == Yp(if s.count == 1 then YLock else YDeferPending)
    case YDeferPending => act == StorePending(true) && p == Yp(YDeferClear)
    case YDeferClear => act == StoreTake(0) && p == Run
    case YLock => act == Acquire && p == Yp(YTest)
    case YTest => act == Skip && p == Yp(if s.take != 0 then YClear else YUnlock)
    case YClear => act == StoreTake(0) && p == Cb(FromYieldpoint, CLock)
    case YUnlock => act == Release && p == Run
  }

  predicate CheckBlockEdge(s: Shared, r: Ret, b: CbPc, act: Action, p: OPc) {
    match b
    case CLock => act == Acquire && p == Cb(r, CAck(0, false))
    case CAck(i, had) =>
      if |s.req| <= i then act == Skip && p == Cb(r, if had then CNotify else CTest)
      else if s.req[i] then act == StoreBlk(i, true) && p == Cb(r, CAckClear(i))
      else act == Skip && p == Cb(r, CAck(i + 1, had))
    case CAckClear(i) => act == StoreReq(i, false) && p == Cb(r, CAck(i + 1, true))
    case CNotify => act == Broadcast && p == Cb(r, CTest)
    case CTest => act == Skip && p == Cb(r, if AnyBlocked(s) then CWait else CStatus)
    case CWait => act == WaitOn && p == Cb(r, CSleep)
    case CSleep => act == WakeUp(BaseDepth(r) + 1) && p == Cb(r, CAck(0, false))
    case CStatus => act == StoreStatus(InManaged) && p == Cb(r, CUnlock)
    case CUnlock => act == Release && p == AfterCheckBlock(r)
  }

  predicate EnterEdge(s: Shared, e: Enter, n: EnPc, act: Action, p: OPc) {
    match n
    case NLoad => act == Skip && p == En(e, if s.status == InManaged then NCas else NLock)
    case NCas =>
      if s.status == InManaged then act == StoreStatus(InNative) && p == AfterEnter(e)
      else act == Skip && p == En(e, NLoad)
    case NLock => act == Acquire && p == En(e, NStatus)
    case NStatus => act == StoreStatus(BlockedInNative) && p == En(e, NAck(0, false))
    case NAck(i, had) =>
      if |s.req| <= i then act == Skip && p == En(e, if had then NNotify else NUnlock)
      else if s.req[i] then act == StoreBlk(i, true) && p == En(e, NAckClear(i))
      else act == Skip && p == En(e, NAck(i + 1, had))
    case NAckClear(i) => act == StoreReq(i, false) && p == En(e, NAck(i + 1, true))
    case NNotify => act == Broadcast && p == En(e, NUnlock)
    case NUnlock => act == Release && p == AfterEnter(e)
  }

  predicate LeaveEdge(s: Shared, k: Leave, x: LnPc, act: Action, p: OPc) {
    match x
    case LLoad =>
      && act == Skip
      && p == (if s.status == InNative then Ln(k, LCas)
               else if k == AttemptOnly then Native
               else Cb(FromNative(k), CLock))
    case LCas =>
      if s.status == InNative then act == StoreStatus(InManaged) && p == AfterLeave(k)
      else act == Skip && p == Ln(k, LLoad)
  }

  predicate HandshakeLockEdge(s: Shared, l: nat, h: HlPc, act: Action, p: OPc) {
    match h
    case HQueued => act == Skip && p == Hl(l, HLoad)
    case HLoad => act == Skip && p == Hl(l, if s.status == InNative then HCas else HDrop)
    case HCas =>
      if s.status == InNative then act == StoreStatus(InManaged) && p == Run
      else act == Skip && p == Hl(l, HLoad)
    case HDrop => act == Skip && p == Ln(IntoRelock(l), LLoad)
  }

  predicate RegisterEdge(native: bool, g: RgPc, act: Action, p: OPc) {
    && act == Skip
    && match g
       case GQueued => p == Rg(native, GPush)
       case GPush => p == Rg(native, GUnlock)
       case GUnlock => p == if native then Ln(IntoManaged, LLoad) else Run
  }

  predicate SelfBlockEdge(u: SbPc, act: Action, p: OPc) {
    match u
    case SLock(a) => act == Acquire && p == Sb(SRequest(a))
    case SRequest(a) => act == StoreReq(a, true) && p == Cb(FromSelfBlock, CLock)
    case SUnlock => act == Release && p == Run
  }

  predicate EnableEdge(s: Shared, boot: bool, v: EyPc, act: Action, p: OPc) {
    match v
    case EAdd => act == AddCount(1) && p == Ey(boot, ETest)
    case ETest => act == Skip && p == if s.count == 1 then Ey(boot, EPending) else AfterEnable(boot)
    case EPending => act == Skip && p == if s.pending then Ey(boot, ETake) else AfterEnable(boot)
    case ETake => act == StoreTake(1) && p == Ey(boot, EClear)
    case EClear => act == StorePending(false) && p == AfterEnable(boot)
  }

  predicate TerminateEdge(t: TmPc, act: Action, p: OPc) {
    match t
    case TLock => act == Acquire && p == Tm(TAbout)
    case TAbout => act == StoreAbout && p == Tm(TNotify)
    case TNotify => act == Broadcast && p == Tm(TUnlock)
    case TUnlock => act == Release && p == Dead
  }

  predicate NativeEdge(act: Action, p: OPc) {
    act == Skip && (p == Ln(AttemptOnly, LLoad) || p == Ln(IntoManaged, LLoad))
  }

  predicate BootEdge(s: Shared, b: BootPc, act: Action, p: OPc) {
    && act == Skip
    && match b
       case BEnable => p == Ey(true, EAdd) || p == Bt(BSweep)   // only mutators enable yieldpoints
       case BSweep => p == Bt(BSwept)
       case BSwept => p == Bt(BPark)
       case BPark =>
         p == if s.status == InNative || s.status == New then Rg(false, GQueued) else En(IntoRegistry, NLoad)
  }

  predicate OwnerEdge(s: Shared, pc: OPc, act: Action, p: OPc) {
    match pc
    case Unborn => false
    case Dead => false
    case Bt(b) => BootEdge(s, b, act, p)
    case Run => RunEdge(s, act, p)
    case Yp(y) => YieldpointEdge(s, y, act, p)
    case Cb(r, b) => CheckBlockEdge(s, r, b, act, p)
    case En(e, n) => EnterEdge(s, e, n, act, p)
    case Native => NativeEdge(act, p)
    case Ln(k, x) => LeaveEdge(s, k, x, act, p)
    case Hl(l, h) => HandshakeLockEdge(s, l, h, act, p)
    case Rg(n, g) => RegisterEdge(n, g, act, p)
    case Sb(u) => SelfBlockEdge(u, act, p)
    case Ey(b, v) => EnableEdge(s, b, v, act, p)
    case Tm(t) => TerminateEdge(t, act, p)
  }

  // ---------------------------------------------------------------- code of the agents

  /** A request an agent carries out against a thread.  `nested` says that the agent already holds
      a guard of the monitor around the call; `test` adds the `is_blocked_for` short circuit. */
  datatype Kind = BlockSync | BlockAsync | Unblock
  datatype Job = Job(kind: Kind, ad: nat, nested: bool, test: bool)

  datatype Res = Skipped | State(s: Status) | Unit

  datatype AtPc =
    | Outer | Test | Inner
    | Req | About | Take | Load | Cas(seen: Status) | Notify(st: Status) | Check | Sleep | Result
    | Clear | Set
    | UClear | USet | UNotify
    | InnerUnlock(res: Res) | OuterUnlock(res: Res) | Done(res: Res)

  /** `set_blocked_exec_status`: the status a stop request turns `seen` into. */
  function BlockTarget(seen: Status): Status {
    match seen
    case InManaged => InManagedToBlock
    case InNative => BlockedInNative
    case _ => seen
  }

  /** The guard of the wait loop of a synchronous `block_unchecked`. */
  predicate MustWait(s: Shared, a: nat) {
    Get(s.req, a) && !Get(s.blk, a) && !s.about
  }

  function FirstPc(j: Job): AtPc {
    if j.nested then Outer else Inner
  }

  predicate AgentEdge(s: Shared, j: Job, at: AtPc, act: Action, p: AtPc) {
    match at
    case Outer => act == Acquire && p == if j.test then Test else Inner
    case Test => act == Skip && p == if Get(s.blk, j.ad) then OuterUnlock(Skipped) else Inner
    case Inner => act == Acquire && p == if j.kind == Unblock then UClear else Req
    // block_unchecked on another thread
    case Req => act == StoreReq(j.ad, true) && p == About
    case About => act == Skip && p == if s.about then InnerUnlock(State(Terminated)) else Take
    case Take => act == StoreTake(1) && p == Load
    case Load => act == Skip && p == Cas(s.status)
    case Cas(seen) =>
      if s.status == seen then act == StoreStatus(BlockTarget(seen)) && p == Notify(BlockTarget(seen))
      else act == Skip && p == Load
    case Notify(st) =>
      && act == Broadcast
      && p == (if st == InManagedToBlock && j.kind == BlockSync then Check
               else if st == BlockedInNative then Clear
               else InnerUnlock(State(st)))
    case Check =>
      if MustWait(s, j.ad) then act == WaitOn && p == Sleep else act == Skip && p == Result
    case Sleep => act == WakeUp(if j.nested then 2 else 1) && p == Check
    case Result => act == Skip && p == InnerUnlock(State(if s.about then Terminated else s.status))
    case Clear => act == StoreReq(j.ad, false) && p == Set
    case Set => act == StoreBlk(j.ad, true) && p == InnerUnlock(State(BlockedInNative))
    // unblock
    case UClear => act == StoreReq(j.ad, false) && p == USet
    case USet => act == StoreBlk(j.ad, false) && p == UNotify
    case UNotify => act == Broadcast && p == InnerUnlock(Unit)
    // guards
    case InnerUnlock(res) => act == Release && p == if j.nested then OuterUnlock(res) else Done(res)
    case OuterUnlock(res) => act == Release && p == Done(res)
    case Done(_) => false
  }

  /** Only the collector ever withdraws a GC block: `unblock::<GCBlockAdapter>` is called from
      `unblock_all_mutators_for_gc` alone. */
  predicate JobOk(n: nat, r: nat, j: Job) {
    j.ad < n && (j.test ==> j.nested) && (j.kind == Unblock && j.ad == GC ==> r == COLLECTOR)
  }
}

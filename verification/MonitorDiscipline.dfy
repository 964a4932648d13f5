/** The thread's monitor is held by exactly whoever is inside a critical section, and what it
    protects changes at the hand of its holder alone. */
module MonitorDiscipline {
  import opened Options
  import opened ThreadProgram

  /** Guards of its own monitor that the thread holds. */
  function ODepth(p: OPc): nat {
    match p
    case Yp(y) => if y.YTest? || y.YClear? || y.YUnlock? then 1 else 0
    case Cb(r, b) => if b.CSleep? then 0 else if b.CLock? then BaseDepth(r) else BaseDepth(r) + 1
    case En(_, n) => if n.NLoad? || n.NCas? || n.NLock? then 0 else 1
    case Sb(u) => if u.SLock? then 0 else 1
    case Tm(t) => if t.TLock? then 0 else 1
    case _ => 0
  }

  /** Guards of the thread's monitor that an agent holds. */
  function ADepth(j: Job, at: AtPc): nat {
    if at.Outer? || at.Sleep? || at.Done? then 0
    else if at.Test? || at.OuterUnlock? then 1
    else if at.Inner? then (if j.nested then 1 else 0)
    else if j.nested then 2 else 1
  }

  /** An agent is only ever where its job takes it. */
  predicate AtFits(j: Job, at: AtPc) {
    match at
    case Outer => j.nested
    case Test => j.nested && j.test
    case Inner => true
    case Check => j.kind == BlockSync
    case Sleep => j.kind == BlockSync
    case Result => j.kind == BlockSync
    case UClear => j.kind == Unblock
    case USet => j.kind == Unblock
    case UNotify => j.kind == Unblock
    case InnerUnlock(res) => res.Unit? <==> j.kind == Unblock
    case OuterUnlock(res) => j.nested && (j.kind == Unblock && !j.test ==> res.Unit?)
    case Done(res) => j.kind == Unblock && !j.test ==> res.Unit?
    case _ => j.kind != Unblock
  }

  /** How an action changes the number of guards its actor holds. */
  predicate DepthMoves(d: nat, act: Action, d': nat) {
    match act
    case Acquire => d' == d + 1
    case Release => d == d' + 1
    case WaitOn => 0 < d && d' == 0
    case WakeUp(n) => d == 0 && 0 < n == d'
    case _ => d' == d
  }

  lemma OwnerDepth(s: Shared, pc: OPc, act: Action, p: OPc)
    requires OwnerEdge(s, pc, act, p)
    ensures DepthMoves(ODepth(pc), act, ODepth(p))
  {
    hide CheckBlockEdge, EnterEdge;
    match pc
    case Run =>
    case Yp(y) =>
    case Cb(r, b) => CheckBlockDepth(s, r, b, act, p);
    case En(e, n) => EnterDepth(s, e, n, act, p);
    case _ =>
  }

  lemma CheckBlockDepth(s: Shared, r: Ret, b: CbPc, act: Action, p: OPc)
    requires CheckBlockEdge(s, r, b, act, p)
    ensures DepthMoves(ODepth(Cb(r, b)), act, ODepth(p))
  {
  }

  lemma EnterDepth(s: Shared, e: Enter, n: EnPc, act: Action, p: OPc)
    requires EnterEdge(s, e, n, act, p)
    ensures DepthMoves(ODepth(En(e, n)), act, ODepth(p))
  {
  }

  lemma AgentDepth(s: Shared, j: Job, at: AtPc, act: Action, p: AtPc)
    requires AgentEdge(s, j, at, act, p) && AtFits(j, at)
    ensures DepthMoves(ADepth(j, at), act, ADepth(j, p)) && AtFits(j, p)
  {
  }

  predicate HeldBy(s: Shared, w: Who, d: nat) {
    if s.holder == Some(w) then s.depth == d else d == 0
  }

  lemma HolderMoves(s: Shared, w: Who, act: Action, d: nat, d': nat)
    requires s.holder == None <==> s.depth == 0
    requires Enabled(s, w, act) && HeldBy(s, w, d) && DepthMoves(d, act, d')
    ensures var t := Do(s, w, act);
            && (t.holder == None <==> t.depth == 0) && HeldBy(t, w, d')
            && (t.holder == s.holder || (s.holder == Some(w) && t.holder == None)
                || (s.holder == None && t.holder == Some(w)))
            && (s.holder != Some(w) && s.holder != None ==> t.depth == s.depth)
  {
  }
}

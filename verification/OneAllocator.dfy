/** A thread's memory as one allocator would see it: a window of free memory, the regions MMTk has
    given out to the thread, and the objects placed in them.  There is no TLAB here; what allocation
    with a TLAB does to the arena is specified by `Allocated`. */
module OneAllocator {
  import opened Align
  import opened Bits
  import opened Header
  import opened Options

  datatype Range = Range(lo: nat, hi: nat)

  /** Free memory is from `cursor` up to `limit`; there is none when `cursor` is 0. */
  datatype Arena = Arena(cursor: nat, limit: nat, regions: seq<Range>, objects: seq<Range>)

  predicate Disjoint(r: Range, s: Range) {
    r.hi <= s.lo || s.hi <= r.lo
  }

  ghost predicate AllDisjoint(rs: seq<Range>) {
    forall i, j :: 0 <= i < j < |rs| ==> Disjoint(rs[i], rs[j])
  }

  predicate Within(r: Range, s: Range) {
    s.lo <= r.lo && r.hi <= s.hi
  }

  ghost predicate Housed(r: Range, regions: seq<Range>) {
    exists i :: 0 <= i < |regions| && Within(r, regions[i])
  }

  /** Nothing placed in the window's region lies beyond the cursor. */
  ghost predicate CursorPast(cursor: nat, limit: nat, objects: seq<Range>) {
    forall i :: 0 <= i < |objects| && objects[i].lo < limit ==> objects[i].hi <= cursor || limit <= cursor
  }

  ghost predicate ArenaInv(a: Arena) {
    && AllDisjoint(a.regions) && AllDisjoint(a.objects)
    && (forall i :: 0 <= i < |a.objects| ==> Housed(a.objects[i], a.regions))
    && (forall i :: 0 <= i < |a.objects| ==> Disjoint(a.objects[i], Range(a.cursor, a.limit)))
    && (if a.cursor == 0 then a.limit == 0 else a.cursor <= a.limit && Housed(Range(a.cursor, a.limit), a.regions))
  }

  // ---------------------------------------------------------------- what MMTk does

  /** Where MMTk finds room: in the window, in a new region that becomes the window, or elsewhere. */
  datatype Grant = Bump(start: nat) | Block(region: Range, start: nat) | Aside(region: Range, start: nat)

  /** A collection leaves the survivors where it likes, in regions of its choice, and no window. */
  datatype Collection = Collection(regions: seq<Range>, survivors: seq<Range>)

  /** An allocation call may collect first. */
  datatype Answer = Answer(gc: Option<Collection>, grant: Grant)

  ghost predicate LegalCollection(c: Collection) {
    && AllDisjoint(c.regions) && AllDisjoint(c.survivors)
    && forall i :: 0 <= i < |c.survivors| ==> Housed(c.survivors[i], c.regions)
  }

  ghost predicate Fresh(region: Range, regions: seq<Range>) {
    && 0 < region.lo <= region.hi < WORD
    && forall i :: 0 <= i < |regions| ==> Disjoint(region, regions[i])
  }

  /** MMTk's side of `alloc`.  Only allocation in the default space uses the window. */
  ghost predicate LegalGrant(a: Arena, usesWindow: bool, g: Grant, size: nat, align: nat, offset: nat)
    requires align > 0
  {
    && AlignedAt(g.start, align, offset)
    && match g
       case Bump(start) => usesWindow && 0 < a.cursor <= start && start + size <= a.limit
       case Block(region, start) => usesWindow && Fresh(region, a.regions) && Within(Range(start, start + size), region)
       case Aside(region, start) => Fresh(region, a.regions) && Within(Range(start, start + size), region)
  }

  function Collected(a: Arena, gc: Option<Collection>): Arena {
    if gc.Some? then Arena(0, 0, gc.value.regions, gc.value.survivors) else a
  }

  ghost predicate Legal(a: Arena, usesWindow: bool, answer: Answer, size: nat, align: nat, offset: nat)
    requires align > 0
  {
    && (answer.gc.Some? ==> LegalCollection(answer.gc.value))
    && LegalGrant(Collected(a, answer.gc), usesWindow, answer.grant, size, align, offset)
  }

  function Placed(a: Arena, start: nat, size: nat): Arena {
    a.(cursor := start + size, objects := a.objects + [Range(start, start + size)])
  }

  function Granted(a: Arena, g: Grant, size: nat): Arena {
    match g
    case Bump(start) => Placed(a, start, size)
    case Block(region, start) => Placed(a.(limit := region.hi, regions := a.regions + [region]), start, size)
    case Aside(region, start) => a.(regions := a.regions + [region],
                                    objects := a.objects + [Range(start, start + size)])
  }

  function Answered(a: Arena, answer: Answer, size: nat): Arena {
    Granted(Collected(a, answer.gc), answer.grant, size)
  }

  // ---------------------------------------------------------------- what allocation does

  datatype Semantics = Default | Los | NonMoving | Immortal | OtherSpace

  /** What differs from thread to thread: whether its plan has a bump pointer, whether `alloc_fastpath`
      is the TLAB, and the size from which objects are large. */
  datatype Config = Config(hasBump: bool, fastPath: bool, maxNonLos: nat)

  datatype Request = Request(size: nat, align: nat, semantics: Semantics)

  function ActualSemantics(cfg: Config, req: Request): Semantics {
    if req.semantics == Default && req.size + HEADER_BYTES >= cfg.maxNonLos then Los else req.semantics
  }

  function ActualSize(req: Request): (size: nat)
    requires req.align > 0
  {
    AlignUp(req.size + HEADER_BYTES, req.align)
  }

  /** The rounded size has room for the header and the object, and is the least multiple of the alignment
      that has. */
  lemma SizeHoldsObject(req: Request)
    requires req.align > 0
    ensures req.size + 8 <= ActualSize(req) < req.size + 8 + req.align && ActualSize(req) % req.align == 0
  {
    AlignUpIsLeast(req.size + HEADER_BYTES, req.align);
  }

  /** The out-of-line path asks for an aligned start, all others for an aligned object. */
  function RequestOffset(cfg: Config, req: Request, outOfLine: bool): nat {
    var s := ActualSemantics(cfg, req);
    if s == OtherSpace || (s == Default && (outOfLine || !cfg.fastPath)) then 0 else OBJECT_REF_OFFSET
  }

  /** The least address from `cursor` on at which an object of the given alignment can start. */
  function LeastStart(cursor: nat, align: nat, offset: nat): (s: int)
    requires align > 0
  {
    AlignUp(cursor + offset, align) - offset
  }

  lemma LeastStartIsLeast(cursor: nat, align: nat, offset: nat)
    requires align > 0
    ensures cursor <= LeastStart(cursor, align, offset)
    ensures LeastAligned(LeastStart(cursor, align, offset), cursor, align, offset)
  {
    var s := LeastStart(cursor, align, offset);
    AlignUpIsLeast(cursor + offset, align);
    forall x: nat | cursor <= x && AlignedAt(x, align, offset)
      ensures s <= x
    {
      assert AlignedAt(x + offset, align, 0);
    }
  }

  /** The mask computation of the code arrives at the same address. */
  lemma MaskFindsLeastStart(cursor: nat, k: nat, offset: nat)
    requires cursor < WORD && offset < WORD && k < 64
    ensures AlignAllocation(cursor, Pow2(k), offset) == LeastStart(cursor, Pow2(k), offset)
  {
    AlignAllocationIsLeast(cursor, k, offset);
    LeastStartIsLeast(cursor, Pow2(k), offset);
  }

  /** Whether the request is served from the window without calling MMTk. */
  predicate ServedFromWindow(a: Arena, cfg: Config, req: Request)
    requires req.align > 0
  {
    && ActualSemantics(cfg, req) == Default && cfg.fastPath && cfg.hasBump && a.cursor > 0
    && LeastStart(a.cursor, req.align, OBJECT_REF_OFFSET) + ActualSize(req) <= a.limit
  }

  /** `allocate`, for one allocator: from the window if it fits, else from MMTk. */
  function Allocated(a: Arena, cfg: Config, req: Request, answer: Answer): (Arena, int)
    requires req.align > 0
  {
    if ServedFromWindow(a, cfg, req) then
      var start := LeastStart(a.cursor, req.align, OBJECT_REF_OFFSET);
      LeastStartIsLeast(a.cursor, req.align, OBJECT_REF_OFFSET);
      (Placed(a, start, ActualSize(req)), start)
    else
      (Answered(a, answer, ActualSize(req)), answer.grant.start)
  }

  /** The call into MMTk that a request comes to, from `allocate` or straight from
      `allocate_out_of_line`. */
  ghost predicate LegalCall(a: Arena, cfg: Config, req: Request, answer: Answer, outOfLine: bool)
    requires req.align > 0
  {
    var usesWindow := cfg.hasBump && ActualSemantics(cfg, req) == Default;
    Legal(a, usesWindow, answer, ActualSize(req), req.align, RequestOffset(cfg, req, outOfLine))
  }

  ghost predicate LegalFor(a: Arena, cfg: Config, req: Request, answer: Answer)
    requires req.align > 0
  {
    !ServedFromWindow(a, cfg, req) ==> LegalCall(a, cfg, req, answer, false)
  }

  /** A request for the default space whose object reaches the limit with its header goes to the
      large-object space: it is not served from the window, and MMTk places it elsewhere.  Every other
      request keeps the space it names. */
  lemma LargeObjectsGoAside(a: Arena, cfg: Config, req: Request, answer: Answer, outOfLine: bool)
    requires req.align > 0
    ensures ActualSemantics(cfg, req) ==
            if req.semantics == Default && cfg.maxNonLos <= req.size + 8 then Los else req.semantics
    ensures ActualSemantics(cfg, req) != Default ==> !ServedFromWindow(a, cfg, req)
    ensures ActualSemantics(cfg, req) != Default && LegalCall(a, cfg, req, answer, outOfLine) ==>
              answer.grant.Aside? && Answered(a, answer, ActualSize(req)).cursor == Collected(a, answer.gc).cursor
                && (answer.grant.start + if ActualSemantics(cfg, req) == OtherSpace then 0 else 8) % req.align == 0
  {
  }

  // ---------------------------------------------------------------- disjointness

  lemma AppendKeepsHoused(rs: seq<Range>, region: Range, objects: seq<Range>)
    requires forall i :: 0 <= i < |objects| ==> Housed(objects[i], rs)
    ensures forall i :: 0 <= i < |objects| ==> Housed(objects[i], rs + [region])
  {
    forall i | 0 <= i < |objects|
      ensures Housed(objects[i], rs + [region])
    {
      StillHoused(objects[i], rs, region);
    }
  }

  lemma StillHoused(r: Range, rs: seq<Range>, region: Range)
    requires Housed(r, rs)
    ensures Housed(r, rs + [region])
  {
    var j :| 0 <= j < |rs| && Within(r, rs[j]);
    assert (rs + [region])[j] == rs[j];
  }

  lemma NewlyHoused(r: Range, rs: seq<Range>, region: Range)
    requires Within(r, region)
    ensures Housed(r, rs + [region])
  {
    assert (rs + [region])[|rs|] == region;
  }

  /** An object in the window. */
  lemma PlacedKeepsInv(a: Arena, start: nat, size: nat)
    requires ArenaInv(a) && 0 < a.cursor <= start && start + size <= a.limit
    ensures ArenaInv(Placed(a, start, size))
  {
    var o := Range(start, start + size);
    var j :| 0 <= j < |a.regions| && Within(Range(a.cursor, a.limit), a.regions[j]);
    assert Within(o, a.regions[j]) && Within(Range(start + size, a.limit), a.regions[j]);
    assert forall i :: 0 <= i < |a.objects| ==> Disjoint(a.objects[i], o);
  }

  /** Whatever is in the old regions is clear of a new one. */
  lemma FreshIsClear(a: Arena, region: Range)
    requires ArenaInv(a) && Fresh(region, a.regions)
    ensures forall i :: 0 <= i < |a.objects| ==> Disjoint(a.objects[i], region)
  {
    forall i | 0 <= i < |a.objects|
      ensures Disjoint(a.objects[i], region)
    {
      var j :| 0 <= j < |a.regions| && Within(a.objects[i], a.regions[j]);
    }
  }

  /** Any legal grant. */
  lemma GrantKeepsInv(a: Arena, usesWindow: bool, g: Grant, size: nat, align: nat, offset: nat)
    requires ArenaInv(a) && align > 0 && LegalGrant(a, usesWindow, g, size, align, offset)
    ensures ArenaInv(Granted(a, g, size))
  {
    match g
    case Bump(start) => PlacedKeepsInv(a, start, size);
    case Block(region, start) =>
      FreshIsClear(a, region);
      AppendKeepsHoused(a.regions, region, a.objects);
      NewlyHoused(Range(start, region.hi), a.regions, region);
      PlacedKeepsInv(Arena(start, region.hi, a.regions + [region], a.objects), start, size);
    case Aside(region, start) =>
      FreshIsClear(a, region);
      AppendKeepsHoused(a.regions, region, a.objects);
      NewlyHoused(Range(start, start + size), a.regions, region);
      if a.cursor != 0 { AsideKeepsWindow(a, region); }
  }

  lemma AsideKeepsWindow(a: Arena, region: Range)
    requires ArenaInv(a) && a.cursor != 0 && Fresh(region, a.regions)
    ensures Disjoint(region, Range(a.cursor, a.limit)) && Housed(Range(a.cursor, a.limit), a.regions + [region])
  {
    var j :| 0 <= j < |a.regions| && Within(Range(a.cursor, a.limit), a.regions[j]);
    StillHoused(Range(a.cursor, a.limit), a.regions, region);
  }

  lemma CollectionKeepsInv(a: Arena, gc: Option<Collection>)
    requires ArenaInv(a) && (gc.Some? ==> LegalCollection(gc.value))
    ensures ArenaInv(Collected(a, gc))
  {
  }

  /** Every allocation keeps the objects apart, inside their regions, and clear of the window. */
  lemma AllocatedKeepsInv(a: Arena, cfg: Config, req: Request, answer: Answer)
    requires ArenaInv(a) && req.align > 0 && LegalFor(a, cfg, req, answer)
    ensures ArenaInv(Allocated(a, cfg, req, answer).0)
  {
    var size := ActualSize(req);
    if ServedFromWindow(a, cfg, req) {
      LeastStartIsLeast(a.cursor, req.align, OBJECT_REF_OFFSET);
      PlacedKeepsInv(a, LeastStart(a.cursor, req.align, OBJECT_REF_OFFSET), size);
    } else {
      AnsweredKeepsInv(a, cfg, req, answer, false);
    }
  }

  lemma AnsweredKeepsInv(a: Arena, cfg: Config, req: Request, answer: Answer, outOfLine: bool)
    requires ArenaInv(a) && req.align > 0 && LegalCall(a, cfg, req, answer, outOfLine)
    ensures ArenaInv(Answered(a, answer, ActualSize(req)))
  {
    CollectionKeepsInv(a, answer.gc);
    var usesWindow := cfg.hasBump && ActualSemantics(cfg, req) == Default;
    GrantKeepsInv(Collected(a, answer.gc), usesWindow, answer.grant, ActualSize(req), req.align,
                  RequestOffset(cfg, req, outOfLine));
  }

  /** The cursor is past every object placed in the window's region. */
  lemma InvCursorPast(a: Arena)
    requires ArenaInv(a)
    ensures CursorPast(a.cursor, a.limit, a.objects)
  {
    forall i | 0 <= i < |a.objects| && a.objects[i].lo < a.limit
      ensures a.objects[i].hi <= a.cursor || a.limit <= a.cursor
    {
      assert Disjoint(a.objects[i], Range(a.cursor, a.limit));
    }
  }

  // ---------------------------------------------------------------- runs

  /** `allocate`, a direct call of `allocate_out_of_line`, or a collection that others asked for. */
  datatype Event =
    | Alloc(req: Request, answer: Answer) | OutOfLine(req: Request, answer: Answer) | Collect(gc: Collection)

  ghost predicate LegalEvent(a: Arena, cfg: Config, e: Event) {
    match e
    case Alloc(req, answer) => req.align > 0 && LegalFor(a, cfg, req, answer)
    case OutOfLine(req, answer) => req.align > 0 && LegalCall(a, cfg, req, answer, true)
    case Collect(gc) => LegalCollection(gc)
  }

  ghost predicate Step(a: Arena, cfg: Config, e: Event, b: Arena) {
    && LegalEvent(a, cfg, e)
    && match e
       case Alloc(req, answer) => b == Allocated(a, cfg, req, answer).0
       case OutOfLine(req, answer) => b == Answered(a, answer, ActualSize(req))
       case Collect(gc) => b == Collected(a, Some(gc))
  }

  ghost predicate IsRun(run: seq<Arena>, cfg: Config, es: seq<Event>) {
    && |run| == |es| + 1 && run[0] == Arena(0, 0, [], [])
    && forall k :: 0 <= k < |es| ==> Step(run[k], cfg, es[k], run[k + 1])
  }

  /** At every point of every run the thread's objects are pairwise disjoint, each inside a region it
      was given, and the free window is beyond all of them. */
  lemma {:induction false} ObjectsNeverOverlap(run: seq<Arena>, cfg: Config, es: seq<Event>, n: nat)
    requires IsRun(run, cfg, es) && n <= |es|
    ensures ArenaInv(run[n]) && CursorPast(run[n].cursor, run[n].limit, run[n].objects)
  {
    if n > 0 {
      ObjectsNeverOverlap(run, cfg, es, n - 1);
      assert Step(run[n - 1], cfg, es[n - 1], run[n]);
      match es[n - 1]
      case Alloc(req, answer) => AllocatedKeepsInv(run[n - 1], cfg, req, answer);
      case OutOfLine(req, answer) => AnsweredKeepsInv(run[n - 1], cfg, req, answer, true);
      case Collect(gc) => CollectionKeepsInv(run[n - 1], Some(gc));
    }
    InvCursorPast(run[n]);
  }

  /** Without a collection every object stays where it was put, and the new one comes last. */
  lemma {:induction false} ObjectsStay(run: seq<Arena>, cfg: Config, es: seq<Event>, m: nat, n: nat)
    requires IsRun(run, cfg, es) && m <= n <= |es|
    requires forall k :: m <= k < n ==> !es[k].Collect? && es[k].answer.gc.None?
    ensures run[m].objects <= run[n].objects && |run[n].objects| == |run[m].objects| + (n - m)
  {
    if m < n {
      ObjectsStay(run, cfg, es, m, n - 1);
      assert Step(run[n - 1], cfg, es[n - 1], run[n]);
    }
  }

  /** What an allocation places comes last, and holds the header and the whole object. */
  lemma NewObjectHasRoom(a: Arena, cfg: Config, e: Event, b: Arena)
    requires !e.Collect? && Step(a, cfg, e, b)
    ensures |b.objects| > 0
    ensures var o := b.objects[|b.objects| - 1]; o.lo + 8 + e.req.size <= o.hi && o.lo == StartOf(a, cfg, e)
  {
    SizeHoldsObject(e.req);
  }

  /** The address an allocation returns, less the header. */
  function StartOf(a: Arena, cfg: Config, e: Event): int
    requires !e.Collect? && e.req.align > 0
  {
    if e.Alloc? then Allocated(a, cfg, e.req, e.answer).1 else e.answer.grant.start
  }

  /** Until the next collection, the header and the bytes that the allocation at `m` asked for are the
      object's alone: they overlap with no other object and with no free memory. */
  lemma ObjectOwnsItsBytes(run: seq<Arena>, cfg: Config, es: seq<Event>, m: nat, n: nat, other: Range)
    requires IsRun(run, cfg, es) && m < n <= |es| && !es[m].Collect? && es[m].req.align > 0
    requires forall k :: m < k < n ==> !es[k].Collect? && es[k].answer.gc.None?
    ensures 0 < |run[m + 1].objects| <= |run[n].objects|
    ensures var i, start := |run[m + 1].objects| - 1, StartOf(run[m], cfg, es[m]);
            0 <= start &&
            var bytes := Range(start, start + 8 + es[m].req.size);
            && Disjoint(bytes, Range(run[n].cursor, run[n].limit))
            && (other in run[n].objects[..i] + run[n].objects[i + 1..] ==> Disjoint(bytes, other))
  {
    assert Step(run[m], cfg, es[m], run[m + 1]);
    NewObjectHasRoom(run[m], cfg, es[m], run[m + 1]);
    ObjectsStay(run, cfg, es, m + 1, n);
    ObjectsNeverOverlap(run, cfg, es, n);
    var i := |run[m + 1].objects| - 1;
    assert run[n].objects[i] == run[m + 1].objects[i];
    if other in run[n].objects[..i] + run[n].objects[i + 1..] {
      var j :| 0 <= j < |run[n].objects| && j != i && run[n].objects[j] == other;
    }
  }

  /** Object addresses are aligned, except that the out-of-line default path aligns the start. */
  lemma AllocatedIsAligned(a: Arena, cfg: Config, req: Request, answer: Answer)
    requires req.align > 0 && LegalFor(a, cfg, req, answer)
    ensures AlignedAt(Allocated(a, cfg, req, answer).1, req.align, RequestOffset(cfg, req, false))
    ensures cfg.fastPath && ActualSemantics(cfg, req) != OtherSpace ==>
              (Allocated(a, cfg, req, answer).1 + OBJECT_REF_OFFSET) % req.align == 0
  {
    LeastStartIsLeast(a.cursor, req.align, OBJECT_REF_OFFSET);
  }
}

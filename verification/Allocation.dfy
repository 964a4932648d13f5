/** Allocation as the code does it: a TLAB that shadows the bump pointer of MMTk's allocator, and is
    flushed to it before, and refilled from it after, every call into MMTk. */
module Allocation {
  import VoBitmap
  import opened Align
  import opened Bits
  import opened Header
  import opened OneAllocator
  import opened Options

  class Tlab {
    var cursor: nat
    var limit: nat

    constructor ()
      ensures cursor == 0 && limit == 0
    {
      cursor, limit := 0, 0;
    }

    /** Succeeds exactly if the least aligned address leaves room for the rounded size. */
    method Allocate(size: nat, k: nat, offset: nat) returns (start: nat)
      requires k < 64 && cursor < WORD && offset < WORD
      modifies this
      ensures limit == old(limit)
      ensures forall s: nat :: LeastAligned(s, old(cursor), Pow2(k), offset) ==>
                               if s + AlignUp(size, Pow2(k)) > limit then start == 0 && cursor == old(cursor)
                               else start == s && cursor == s + AlignUp(size, Pow2(k))
    {
      var alignment := Pow2(k);
      var rounded := AlignUp(size, alignment);
      var result := AlignAllocation(cursor, alignment, offset);
      AlignAllocationIsLeast(cursor, k, offset);
      if result + rounded > limit {
        start := 0;
      } else {
        cursor := result + rounded;
        start := result;
      }
    }

    method Rebind(c: nat, l: nat)
      modifies this
      ensures cursor == c && limit == l
    {
      cursor, limit := c, l;
    }

    method Reset()
      modifies this
      ensures cursor == 0 && limit == 0
    {
      cursor, limit := 0, 0;
    }

    method Take() returns (c: nat, l: nat)
      modifies this
      ensures c == old(cursor) && l == old(limit) && cursor == 0 && limit == 0
    {
      c, l := cursor, limit;
      Reset();
    }
  }

  /** A thread with its TLAB and the allocator MMTk keeps for it. */
  class Mutator {
    const cfg: Config
    const tlab: Tlab
    const vo: VoBitmap.VoBitmap
    var bumpCursor: nat
    var bumpLimit: nat
    ghost var regions: seq<Range>
    ghost var objects: seq<Range>

    constructor (cfg: Config, vo: VoBitmap.VoBitmap)
      requires vo.Valid()
      ensures Ready() && fresh(tlab) && this.cfg == cfg && this.vo == vo && Model() == Arena(0, 0, [], [])
    {
      this.cfg, this.vo := cfg, vo;
      tlab := new Tlab();
      bumpCursor, bumpLimit, regions, objects := 0, 0, [], [];
    }

    /** The free memory is what the TLAB says, and what the allocator says while there is no TLAB. */
    ghost function Model(): Arena
      reads this, tlab
    {
      if tlab.cursor != 0 then Arena(tlab.cursor, tlab.limit, regions, objects)
      else Arena(bumpCursor, bumpLimit, regions, objects)
    }

    ghost predicate Valid()
      reads this, tlab, vo.bytes
    {
      && ArenaInv(Model()) && Model().limit < WORD && vo.Valid()
      && (tlab.cursor == 0 ==> tlab.limit == 0)
      && (!cfg.hasBump ==> tlab.cursor == 0 && bumpCursor == 0)
    }

    /** Between calls of the allocation functions the TLAB has all the free memory there is. */
    ghost predicate Ready()
      reads this, tlab, vo.bytes
    {
      Valid() && (tlab.cursor == 0 ==> bumpCursor == 0)
    }

    ghost predicate TlabIsEmpty()
      reads tlab
    {
      tlab.cursor == 0 && tlab.limit == 0
    }

    method FlushTlab()
      requires Valid()
      modifies this`bumpCursor, this`bumpLimit, tlab
      ensures Valid() && TlabIsEmpty() && Model() == old(Model())
    {
      var c, l := tlab.Take();
      if c == 0 {
        assert l == 0;
        return;
      }
      if cfg.hasBump {
        bumpCursor, bumpLimit := c, l;
      } else {
        assert false;   // "currently selected plan has no TLAB"
      }
    }

    method RefillTlab()
      requires Valid() && TlabIsEmpty()
      modifies tlab
      ensures Ready() && Model() == old(Model())
    {
      if cfg.hasBump {
        tlab.Rebind(bumpCursor, bumpLimit);
      }
    }

    /** MMTk's `alloc` and `alloc_slow`, to its contract.  The precondition is what the code owes it:
        no memory is held back in the TLAB, and the cursor is past all that was allocated there. */
    method MmtkAlloc(size: nat, align: nat, offset: nat, usesWindow: bool, answer: Answer) returns (start: nat)
      requires Valid() && TlabIsEmpty() && CursorPast(bumpCursor, bumpLimit, objects)
      requires align > 0 && (usesWindow ==> cfg.hasBump) && Legal(Model(), usesWindow, answer, size, align, offset)
      modifies this`bumpCursor, this`bumpLimit, this`regions, this`objects
      ensures Valid() && TlabIsEmpty()
      ensures Model() == Answered(old(Model()), answer, size) && start == answer.grant.start
    {
      CollectionKeepsInv(Model(), answer.gc);
      GrantKeepsInv(Collected(Model(), answer.gc), usesWindow, answer.grant, size, align, offset);
      ghost var after := Answered(Model(), answer, size);
      if answer.gc.Some? {
        bumpCursor, bumpLimit := 0, 0;
      }
      match answer.grant {
        case Bump(s) => bumpCursor := s + size;
        case Block(region, s) => bumpCursor, bumpLimit := s + size, region.hi;
        case Aside(_, _) =>
      }
      regions, objects := after.regions, after.objects;
      start := answer.grant.start;
    }

    /** What MMTk does to a flushed allocator in a collection. */
    method ResetByCollection(gc: Collection)
      requires Valid() && TlabIsEmpty() && LegalCollection(gc)
      modifies this`bumpCursor, this`bumpLimit, this`regions, this`objects
      ensures Ready() && Model() == Collected(old(Model()), Some(gc))
    {
      CollectionKeepsInv(Model(), Some(gc));
      bumpCursor, bumpLimit := 0, 0;
      regions, objects := gc.regions, gc.survivors;
    }

    /** `allocate_slow`, `allocate_los`, `allocate_nonmoving`, `allocate_immortal` and the default
        branch of `allocate_out_of_line`, which differ in the space, in the offset, and in that large
        objects leave the VO bit to MMTk. */
    method AllocateFromMmtk(size: nat, align: nat, offset: nat, space: Semantics, answer: Answer) returns (obj: nat)
      requires Valid() && align > 0 && Legal(Model(), cfg.hasBump && space == Default, answer, size, align, offset)
      requires VoBitmap.ByteIndex(answer.grant.start + OBJECT_REF_OFFSET) < vo.bytes.Length
      modifies this`bumpCursor, this`bumpLimit, this`regions, this`objects, tlab, vo.bytes
      ensures Ready() && Model() == Answered(old(Model()), answer, size)
      ensures obj == answer.grant.start + OBJECT_REF_OFFSET
      ensures MarksExactly(old(vo.bytes[..]), vo.bytes[..], space != Los, obj)
    {
      FlushTlab();
      InvCursorPast(Model());
      var start := MmtkAlloc(size, align, offset, cfg.hasBump && space == Default, answer);
      obj := start + OBJECT_REF_OFFSET;
      if space != Los {
        vo.SetVoBit(obj);
      }
      RefillTlab();
    }

    method AllocateOutOfLine(req: Request, answer: Answer) returns (obj: nat)
      requires Valid() && req.align > 0 && LegalCall(Model(), cfg, req, answer, true)
      requires VoBitmap.ByteIndex(answer.grant.start + OBJECT_REF_OFFSET) < vo.bytes.Length
      modifies this`bumpCursor, this`bumpLimit, this`regions, this`objects, tlab, vo.bytes
      ensures Ready() && Model() == Answered(old(Model()), answer, ActualSize(req))
      ensures obj == answer.grant.start + OBJECT_REF_OFFSET
      ensures MarksExactly(old(vo.bytes[..]), vo.bytes[..], !IsLarge(cfg.maxNonLos, req), obj)
      ensures |objects| > 0 && objects[|objects| - 1].lo + 8 == obj && obj + req.size <= objects[|objects| - 1].hi
    {
      SizeHoldsObject(req);
      var size := req.size + HEADER_BYTES;
      var semantics := req.semantics;
      if semantics == Default && size >= cfg.maxNonLos {
        semantics := Los;
      }
      size := AlignUp(size, req.align);
      match semantics {
        case Los | NonMoving | Immortal =>
          obj := AllocateFromMmtk(size, req.align, OBJECT_REF_OFFSET, semantics, answer);
        case _ =>
          obj := AllocateFromMmtk(size, req.align, 0, semantics, answer);
      }
    }

    /** The fast path: an object in the TLAB if it fits there. */
    method AllocateInTlab(req: Request, size: nat, k: nat) returns (start: nat)
      requires Ready() && k < 64 && req.align == Pow2(k) && size == ActualSize(req)
      requires ActualSemantics(cfg, req) == Default && cfg.fastPath
      modifies this`objects, tlab
      ensures Ready()
      ensures start != 0 <==> ServedFromWindow(old(Model()), cfg, req)
      ensures start != 0 ==> start == LeastStart(old(Model()).cursor, req.align, OBJECT_REF_OFFSET)
      ensures start != 0 ==> Model() == Placed(old(Model()), start, size)
      ensures start == 0 ==> Model() == old(Model())
    {
      hide LeastAligned;
      hide AlignUp;
      hide LeastStart;
      hide ActualSize;
      hide Pow2;
      hide Housed;
      hide AllDisjoint;
      ghost var before := Model();
      LeastStartIsLeast(tlab.cursor, req.align, OBJECT_REF_OFFSET);
      SizeIsRounded(req, size);
      ghost var s: nat := LeastStart(tlab.cursor, req.align, OBJECT_REF_OFFSET);
      start := tlab.Allocate(size, k, OBJECT_REF_OFFSET);
      if start != 0 {
        PlacedKeepsInv(before, start, size);
        objects := objects + [Range(start, start + size)];
      }
    }

    /** `allocate` is one allocator's allocation: the TLAB does not show. */
    method Allocate(req: Request, k: nat, answer: Answer) returns (obj: nat)
      requires Ready() && k < 64 && req.align == Pow2(k) && LegalFor(Model(), cfg, req, answer)
      requires var start := Allocated(Model(), cfg, req, answer).1;
               start >= 0 && VoBitmap.ByteIndex(start + OBJECT_REF_OFFSET) < vo.bytes.Length
      modifies this`bumpCursor, this`bumpLimit, this`regions, this`objects, tlab, vo.bytes
      ensures Ready() && Model() == Allocated(old(Model()), cfg, req, answer).0
      ensures obj == Allocated(old(Model()), cfg, req, answer).1 + OBJECT_REF_OFFSET
      ensures MarksExactly(old(vo.bytes[..]), vo.bytes[..], !IsLarge(cfg.maxNonLos, req), obj)
      ensures |objects| > 0 && objects[|objects| - 1].lo + 8 == obj && obj + req.size <= objects[|objects| - 1].hi
    {
      hide Pow2, AlignUp, LeastStart, Housed, AllDisjoint, LeastAligned;
      SizeHoldsObject(req);
      var size := req.size + HEADER_BYTES;
      var semantics := req.semantics;
      if semantics == Default && size >= cfg.maxNonLos {
        semantics := Los;
      }
      size := AlignUp(size, req.align);
      if semantics == Default && cfg.fastPath {
        var start := AllocateInTlab(req, size, k);
        if start != 0 {
          obj := start + OBJECT_REF_OFFSET;
          vo.SetVoBit(obj);
          return;
        }
        obj := AllocateFromMmtk(size, req.align, OBJECT_REF_OFFSET, semantics, answer);
        return;
      }
      obj := AllocateOutOfLine(req, answer);
    }
  }

  /** The request names the large-object space, or the default space with an object that reaches the
      limit together with its header. */
  predicate IsLarge(maxNonLos: nat, req: Request) {
    req.semantics == Los || (req.semantics == Default && maxNonLos <= req.size + 8)
  }

  lemma SizeIsRounded(req: Request, size: nat)
    requires req.align > 0 && size == ActualSize(req)
    ensures size >= HEADER_BYTES && AlignUp(size, req.align) == size
  {
    AlignUpIsLeast(req.size + HEADER_BYTES, req.align);
    AlignUpIsLeast(size, req.align);
    assert AlignedAt(size, req.align, 0);
  }

  /** Only the object's bit has been set, if any. */
  ghost predicate MarksExactly(before: seq<nat>, after: seq<nat>, marks: bool, obj: nat) {
    forall g: nat :: VoBitmap.IsMarked(after, g) <==>
      (marks && g == VoBitmap.Granule(obj)) || VoBitmap.IsMarked(before, g)
  }

  // ---------------------------------------------------------------- stopping for a collection

  /** `stop_all_mutators`, once the threads are stopped: every TLAB is flushed.  A thread may occur
      more than once in the snapshot. */
  method StopAllMutators(mutators: seq<Mutator>)
    requires forall m :: m in mutators ==> m.Valid()
    requires forall m, n :: m in mutators && n in mutators && m != n ==> m.tlab != n.tlab
    modifies mutators, set m | m in mutators :: m.tlab
    ensures forall m :: m in mutators ==> m.Valid() && m.TlabIsEmpty() && m.Model() == old(m.Model())
  {
    for i := 0 to |mutators|
      invariant forall m :: m in mutators ==> m.Valid() && m.Model() == old(m.Model())
      invariant forall m :: m in mutators[..i] ==> m.TlabIsEmpty()
    {
      mutators[i].FlushTlab();
    }
  }
}

/** Objects in memory, and moving them.  Memory is an array of 64-bit words: object references, object
    starts and sizes are multiples of 8.  An object is its header word, at `ref - 8`, its payload
    from `ref` on, and, once it has been moved with a hash, the hash word at `ref - 16`. */
module ObjectMove {
  import opened Align
  import opened Header
  import opened Options

  const WORD_BYTES: nat := 8

  // ---------------------------------------------------------------- sizes and addresses

  /** `hashcode_overhead`. */
  function Overhead(state: HashState, whenCopied: bool): nat {
    if (if whenCopied then state != Unhashed else state == HashedAndMoved) then WORD_BYTES else 0
  }

  /** `bytes_used`, for an object whose instance and computed sizes come to `size` bytes. */
  function BytesUsed(state: HashState, size: nat): nat {
    AlignUp(Overhead(state, false) + size + WORD_BYTES, WORD_BYTES)
  }

  function BytesRequiredWhenCopied(state: HashState, size: nat): nat {
    AlignUp(Overhead(state, true) + size + WORD_BYTES, WORD_BYTES)
  }

  function ObjectStart(ref: nat, state: HashState): int {
    ref - (OBJECT_REF_OFFSET + Overhead(state, false))
  }

  function OffsetForAlignment(state: HashState): nat {
    WORD_BYTES + Overhead(state, true)
  }

  function ReferenceWhenCopiedTo(state: HashState, to: nat): nat {
    to + OBJECT_REF_OFFSET + Overhead(state, true)
  }

  /** Words of payload. */
  function PayloadWords(size: nat): nat {
    (size + 7) / 8
  }

  lemma SizesInWords(state: HashState, size: nat)
    ensures BytesUsed(state, size) == Overhead(state, false) + 8 + 8 * PayloadWords(size)
    ensures BytesRequiredWhenCopied(state, size) == Overhead(state, true) + 8 + 8 * PayloadWords(size)
  {
  }

  /** An object takes a word of header, its payload rounded up to words, and one word more for the hash:
      in place once it has been moved with a hash, in a copy as soon as it has been hashed.  Its reference
      is past header and hash word, at its old place as at the new one. */
  lemma LayoutIs(state: HashState, size: nat, ref: nat, to: nat)
    ensures var hash, hashInCopy := if state == HashedAndMoved then 8 else 0, if state == Unhashed then 0 else 8;
            && size + 8 + hash <= BytesUsed(state, size) < size + 16 + hash && BytesUsed(state, size) % 8 == 0
            && BytesRequiredWhenCopied(state, size) == BytesUsed(state, size) - hash + hashInCopy
            && ObjectStart(ref, state) == ref - 8 - hash
            && ReferenceWhenCopiedTo(state, to) == to + 8 + hashInCopy == to + OffsetForAlignment(state)
  {
    SizesInWords(state, size);
  }

  // ---------------------------------------------------------------- one object

  /** What there is to know about an object of `n` payload words at `ref`. */
  datatype View = View(ref: nat, meta: nat, state: HashState, stored: nat, payload: seq<nat>)

  /** `hashcode` returns this. */
  function HashOf(v: View): nat {
    if v.state == HashedAndMoved then v.stored else v.ref / WORD_BYTES
  }

  function AfterHashcode(v: View): View {
    if v.state == HashedAndMoved then v else v.(state := Hashed)
  }

  /** The object after `move_object` to `addr`: the last branch of the code marks it `Hashed` even if
      it was `HashedAndMoved`, and the hash word is then no longer part of it. */
  function AfterMove(v: View, addr: nat): View {
    View(ReferenceWhenCopiedTo(v.state, addr), v.meta,
         if v.state == Hashed then HashedAndMoved else Hashed,
         if v.state == Hashed then v.ref / WORD_BYTES else 0,
         v.payload)
  }

  // ---------------------------------------------------------------- objects in memory

  /** The word at an address. */
  function At(address: int): int {
    address / WORD_BYTES
  }

  /** An object of `n` payload words lies at `ref`. */
  predicate Holds(memory: seq<nat>, ref: nat, n: nat) {
    && ref % WORD_BYTES == 0 && 1 <= At(ref) && At(ref) + n <= |memory|
    && ValidHeader(memory[At(ref) - 1])
    && (StateOf(memory[At(ref) - 1]) == HashedAndMoved ==> 2 <= At(ref))
  }

  function ViewOf(memory: seq<nat>, ref: nat, n: nat): View
    requires Holds(memory, ref, n)
  {
    var header := memory[At(ref) - 1];
    View(ref, Metadata(header), StateOf(header),
         if StateOf(header) == HashedAndMoved then memory[At(ref) - 2] else 0,
         memory[At(ref)..At(ref) + n])
  }

  /** The words from `lo` up to `hi` aside, nothing has changed. */
  ghost predicate OnlyWrites(before: seq<nat>, after: seq<nat>, lo: int, hi: int) {
    |after| == |before| && forall k :: 0 <= k < |before| && !(lo <= k < hi) ==> after[k] == before[k]
  }

  class Heap {
    const words: array<nat>

    constructor (size: nat)
      ensures fresh(words) && words.Length == size
    {
      words := new nat[size];
    }

    /** `hashcode`, with address-based hashing. */
    method Hashcode(ref: nat, ghost n: nat) returns (hash: nat)
      requires Holds(words[..], ref, n)
      modifies words
      ensures Holds(words[..], ref, n) && ViewOf(words[..], ref, n) == AfterHashcode(old(ViewOf(words[..], ref, n)))
      ensures hash == HashOf(old(ViewOf(words[..], ref, n))) == HashOf(ViewOf(words[..], ref, n))
      ensures OnlyWrites(old(words[..]), words[..], At(ref) - 1, At(ref))
      ensures hash == if old(StateOf(words[At(ref) - 1])) == HashedAndMoved then old(words[At(ref) - 2]) else ref / 8
      ensures Metadata(words[..][At(ref) - 1]) == old(Metadata(words[At(ref) - 1]))
      ensures StateOf(words[..][At(ref) - 1]) ==
              if old(StateOf(words[At(ref) - 1])) == HashedAndMoved then HashedAndMoved else Hashed
    {
      var header := words[At(ref) - 1];
      if StateOf(header) == HashedAndMoved {
        return words[At(ref + HASHCODE_OFFSET)];
      }
      hash := ref / WORD_BYTES;
      SetStateKeepsMetadata(header, Hashed);
      words[At(ref) - 1] := SetState(header, Hashed);
      assert words[At(ref)..At(ref) + n] == old(words[At(ref)..At(ref) + n]);
    }

    /** `std::ptr::copy`: every source word is read before it is overwritten. */
    method CopyWords(from: nat, to: nat, n: nat)
      requires from + n <= words.Length && to + n <= words.Length
      modifies words
      ensures words[..][to..to + n] == old(words[..])[from..from + n]
      ensures OnlyWrites(old(words[..]), words[..], to, to + n)
    {
      forall k | 0 <= k < n {
        words[to + k] := words[from + k];
      }
    }

    /** `move_object`, up to and including the copy. */
    method CopyObject(ref: nat, addr: nat, numBytes: nat, hashState: HashState, ghost n: nat) returns (toObj: nat)
      requires Holds(words[..], ref, n) && StateOf(words[At(ref) - 1]) == hashState
      requires numBytes == Overhead(hashState, true) + WORD_BYTES + WORD_BYTES * n
      requires addr % WORD_BYTES == 0 && addr + numBytes <= WORD_BYTES * words.Length
      modifies words
      ensures toObj == ReferenceWhenCopiedTo(hashState, addr)
      ensures Holds(words[..], toObj, n) && ViewOf(words[..], toObj, n) == old(ViewOf(words[..], ref, n)).(ref := toObj)
      ensures OnlyWrites(old(words[..]), words[..], At(addr), At(addr + numBytes))
    {
      hide StateOf;
      hide Metadata;
      hide ViewOf;
      hide ValidHeader;
      hide At;
      var copyBytes := numBytes;
      var objRefOffset := OBJECT_REF_OFFSET;
      var to := addr;
      if hashState == Hashed {
        copyBytes := copyBytes - WORD_BYTES;   // exclude the hash word from the copy
        to := to + WORD_BYTES;                 // and leave room for it
      } else if hashState == HashedAndMoved {
        objRefOffset := objRefOffset + WORD_BYTES;
      }
      toObj := to + objRefOffset;
      var from := ref - objRefOffset;
      ghost var h := objRefOffset / WORD_BYTES;
      InWords(ref, toObj, to, objRefOffset, from, copyBytes, addr, numBytes, h, n, words.Length);
      CopyWords(At(from), At(to), At(copyBytes));
      CopiedObject(old(words[..]), words[..], ref, toObj, At(from), At(to), h, n);
    }

    /** `move_object`, after the copy: the hash word and the new hash state. */
    method FinishMove(ref: nat, toObj: nat, hashState: HashState, ghost n: nat)
      requires Holds(words[..], toObj, n) && StateOf(words[At(toObj) - 1]) == hashState
      requires hashState == Hashed ==> 2 <= At(toObj)
      modifies words
      ensures Holds(words[..], toObj, n)
      ensures ViewOf(words[..], toObj, n) == Finished(old(ViewOf(words[..], toObj, n)), ref)
      ensures OnlyWrites(old(words[..]), words[..], At(toObj) - (if hashState == Hashed then 2 else 1), At(toObj))
    {
      var header := words[At(toObj) - 1];
      if hashState == Hashed {
        words[At(toObj + HASHCODE_OFFSET)] := ref / WORD_BYTES;
        SetStateKeepsMetadata(header, HashedAndMoved);
        words[At(toObj) - 1] := SetState(header, HashedAndMoved);
      } else {
        SetStateKeepsMetadata(header, Hashed);
        words[At(toObj) - 1] := SetState(header, Hashed);
      }
      assert words[At(toObj)..At(toObj) + n] == old(words[At(toObj)..At(toObj) + n]);
    }

    /** `move_object` to an address, wherever the two copies overlap. */
    method MoveObject(ref: nat, addr: nat, numBytes: nat, ghost n: nat) returns (toObj: nat)
      requires Holds(words[..], ref, n)
      requires numBytes == Overhead(ViewOf(words[..], ref, n).state, true) + WORD_BYTES + WORD_BYTES * n
      requires addr % WORD_BYTES == 0 && addr + numBytes <= WORD_BYTES * words.Length
      modifies words
      ensures toObj == ReferenceWhenCopiedTo(old(ViewOf(words[..], ref, n)).state, addr)
      ensures Holds(words[..], toObj, n)
      ensures ViewOf(words[..], toObj, n) == AfterMove(old(ViewOf(words[..], ref, n)), addr)
      ensures OnlyWrites(old(words[..]), words[..], At(addr), At(addr + numBytes))
      ensures Metadata(words[..][At(toObj) - 1]) == old(Metadata(words[At(ref) - 1]))
      ensures words[..][At(toObj)..At(toObj) + n] == old(words[..][At(ref)..At(ref) + n])
      ensures StateOf(words[..][At(toObj) - 1]) ==
              if old(StateOf(words[At(ref) - 1])) == Hashed then HashedAndMoved else Hashed
      ensures old(StateOf(words[At(ref) - 1])) == Hashed ==> 2 <= At(toObj) && words[..][At(toObj) - 2] == ref / 8
    {
      hide StateOf;
      hide Metadata;
      hide ValidHeader;
      var hashState := StateOf(words[At(ref) - 1]);
      toObj := CopyObject(ref, addr, numBytes, hashState, n);
      FinishMove(ref, toObj, hashState, n);
    }

    /** `copy`, for an object of `size` bytes.  `addr` is what `alloc_copy` returns for the bytes,
        the alignment and the offset the code computes: room at a suitably aligned address. */
    method Copy(ref: nat, size: nat, align: nat, addr: nat) returns (toObj: nat)
      requires Holds(words[..], ref, PayloadWords(size)) && align > 0
      requires var state := ViewOf(words[..], ref, PayloadWords(size)).state;
               && addr % WORD_BYTES == 0 && AlignedAt(addr, align, OffsetForAlignment(state))
               && addr + BytesRequiredWhenCopied(state, size) <= WORD_BYTES * words.Length
      modifies words
      ensures var was := old(ViewOf(words[..], ref, PayloadWords(size)));
              && toObj == ReferenceWhenCopiedTo(was.state, addr) && toObj % align == 0
              && Holds(words[..], toObj, PayloadWords(size))
              && ViewOf(words[..], toObj, PayloadWords(size)) == AfterMove(was, addr)
              && OnlyWrites(old(words[..]), words[..], At(addr), At(addr + BytesRequiredWhenCopied(was.state, size)))
      ensures Metadata(words[..][At(toObj) - 1]) == old(Metadata(words[At(ref) - 1]))
      ensures words[..][At(toObj)..At(toObj) + PayloadWords(size)]
              == old(words[..][At(ref)..At(ref) + PayloadWords(size)])
      ensures StateOf(words[..][At(toObj) - 1]) ==
              if old(StateOf(words[At(ref) - 1])) == Hashed then HashedAndMoved else Hashed
      ensures old(StateOf(words[At(ref) - 1])) == Hashed ==> 2 <= At(toObj) && words[..][At(toObj) - 2] == ref / 8
      ensures toObj == addr + if old(StateOf(words[At(ref) - 1])) == Unhashed then 8 else 16
    {
      hide StateOf;
      hide Metadata;
      hide ValidHeader;
      hide AlignUp;
      hide PayloadWords;
      var state := StateOf(words[At(ref) - 1]);
      var bytes := BytesRequiredWhenCopied(state, size);
      SizesInWords(state, size);
      toObj := MoveObject(ref, addr, bytes, PayloadWords(size));
    }
  }

  function Finished(v: View, from: nat): View {
    v.(state := if v.state == Hashed then HashedAndMoved else Hashed,
       stored := if v.state == Hashed then from / WORD_BYTES else 0)
  }

  /** The byte quantities of the copy, counted in words. */
  lemma InWords(ref: nat, toObj: nat, to: nat, objRefOffset: nat, from: int, copyBytes: int, addr: nat, numBytes: nat,
                h: nat, n: nat, length: nat)
    requires to % 8 == 0 && ref % 8 == 0 && objRefOffset == 8 * h && copyBytes == 8 * h + 8 * n
    requires addr % 8 == 0 && addr <= to && addr + numBytes == to + copyBytes <= 8 * length
    requires toObj == to + objRefOffset && ref == from + objRefOffset && h <= At(ref)
    ensures toObj % 8 == 0 && At(toObj) == At(to) + h && At(ref) == At(from) + h
    ensures At(copyBytes) == h + n && At(addr + numBytes) == At(to) + h + n <= length && At(addr) <= At(to)
    ensures 0 <= At(from) && 0 <= At(to)
  {
  }

  /** An object whose words, from `h` before its reference on, were copied as one block. */
  lemma CopiedObject(v: seq<nat>, w: seq<nat>, ref: nat, toObj: nat, from: nat, to: nat, h: nat, n: nat)
    requires Holds(v, ref, n) && |w| == |v| && toObj % WORD_BYTES == 0
    requires At(ref) == from + h && At(toObj) == to + h && to + h + n <= |w|
    requires h == if StateOf(v[At(ref) - 1]) == HashedAndMoved then 2 else 1
    requires w[to..to + h + n] == v[from..from + h + n]
    ensures Holds(w, toObj, n) && ViewOf(w, toObj, n) == ViewOf(v, ref, n).(ref := toObj)
  {
    hide StateOf;
    hide Metadata;
    hide ValidHeader;
    var a, b := w[to..to + h + n], v[from..from + h + n];
    assert a[h - 1] == b[h - 1] && (2 <= h ==> a[h - 2] == b[h - 2]);
    assert a[h..] == w[to + h..to + h + n] && b[h..] == v[from + h..from + h + n];
  }

  // ---------------------------------------------------------------- runs of hashing and moving

  /** An object with the place it was given: `start` is the address its allocation returned, `reserved`
      the bytes asked for, and `returned` the first hash code handed out. */
  datatype Tracked = Tracked(v: View, start: int, reserved: nat, returned: Option<nat>)

  datatype Op = Hash | Move(addr: nat)

  function Allocated(addr: nat, meta: nat, size: nat, payload: seq<nat>): Tracked {
    Tracked(View(addr + OBJECT_REF_OFFSET, meta, Unhashed, 0, payload), addr, BytesUsed(Unhashed, size), None)
  }

  function Apply(t: Tracked, size: nat, op: Op): Tracked {
    match op
    case Hash => t.(v := AfterHashcode(t.v), returned := if t.returned.None? then Some(HashOf(t.v)) else t.returned)
    case Move(addr) => t.(v := AfterMove(t.v, addr), start := addr,
                          reserved := BytesRequiredWhenCopied(t.v.state, size))
  }

  /** `ts` is what becomes of the object under `ops`. */
  ghost predicate IsRun(ts: seq<Tracked>, size: nat, ops: seq<Op>) {
    |ts| == |ops| + 1 && forall k :: 0 <= k < |ops| ==> ts[k + 1] == Apply(ts[k], size, ops[k])
  }

  /** `object_start` is the allocation address and `bytes_used` what was reserved. */
  predicate LayoutKept(t: Tracked, size: nat) {
    ObjectStart(t.v.ref, t.v.state) == t.start && BytesUsed(t.v.state, size) == t.reserved
  }

  /** `hashcode` still returns what it returned first. */
  predicate HashKept(t: Tracked) {
    t.returned.Some? ==> HashOf(t.v) == t.returned.value && t.v.state != Unhashed
  }

  /** A move of an object that already carries its hash word. */
  predicate LosesHashWord(t: Tracked, op: Op) {
    op.Move? && t.v.state == HashedAndMoved
  }

  /** One move keeps the layout exactly if the object did not carry a hash word. */
  lemma MoveKeepsLayout(t: Tracked, size: nat, addr: nat)
    ensures LayoutKept(Apply(t, size, Move(addr)), size) <==> t.v.state != HashedAndMoved
  {
    SizesInWords(t.v.state, size);
    SizesInWords(AfterMove(t.v, addr).state, size);
  }

  /** A move keeps a hash that was handed out unless the object carried a hash word, which is then
      replaced by the new address. */
  lemma MoveKeepsHash(t: Tracked, size: nat, addr: nat)
    requires HashKept(t) && t.returned.Some? && addr % WORD_BYTES == 0
    ensures HashKept(Apply(t, size, Move(addr))) <==>
              t.v.state != HashedAndMoved || addr + 2 * WORD_BYTES == WORD_BYTES * t.returned.value
  {
  }

  lemma StepKeepsLayout(t: Tracked, size: nat, op: Op)
    requires LayoutKept(t, size)
    ensures LayoutKept(Apply(t, size, op), size) <==> !LosesHashWord(t, op)
  {
    match op
    case Move(addr) => MoveKeepsLayout(t, size, addr);
    case Hash =>
      SizesInWords(t.v.state, size);
      SizesInWords(AfterHashcode(t.v).state, size);
  }

  /** Over any run the layout is intact throughout exactly if no object is moved that carries a hash
      word. */
  lemma {:induction false} LayoutOverRuns(ts: seq<Tracked>, size: nat, ops: seq<Op>)
    requires IsRun(ts, size, ops) && LayoutKept(ts[0], size)
    ensures (forall k :: 0 <= k <= |ops| ==> LayoutKept(ts[k], size)) <==>
              (forall k :: 0 <= k < |ops| ==> !LosesHashWord(ts[k], ops[k]))
  {
    hide LayoutKept;
    hide LosesHashWord;
    hide Apply;
    if forall k :: 0 <= k < |ops| ==> !LosesHashWord(ts[k], ops[k]) {
      var n := 0;
      while n < |ops|
        invariant n <= |ops| && forall j :: 0 <= j <= n ==> LayoutKept(ts[j], size)
      {
        StepKeepsLayout(ts[n], size, ops[n]);
        n := n + 1;
      }
    } else {
      var k :| 0 <= k < |ops| && LosesHashWord(ts[k], ops[k]);
      if LayoutKept(ts[k], size) { StepKeepsLayout(ts[k], size, ops[k]); }
      assert !(LayoutKept(ts[k], size) && LayoutKept(ts[k + 1], size));
    }
  }

  /** Over any such run the hash first returned is returned ever after. */
  lemma {:induction false} HashOverRuns(ts: seq<Tracked>, size: nat, ops: seq<Op>, n: nat)
    requires IsRun(ts, size, ops) && HashKept(ts[0]) && n <= |ops|
    requires forall k :: 0 <= k < |ops| ==> !LosesHashWord(ts[k], ops[k])
    ensures HashKept(ts[n])
    ensures forall k :: 0 <= k <= n && ts[k].returned.Some? ==>
            ts[n].returned == ts[k].returned && HashOf(ts[n].v) == ts[k].returned.value
  {
    if n > 0 {
      HashOverRuns(ts, size, ops, n - 1);
      assert ts[n] == Apply(ts[n - 1], size, ops[n - 1]) && !LosesHashWord(ts[n - 1], ops[n - 1]);
    }
  }

  /** A move that drops the hash word of an object whose hash was handed out, to an address that does
      not hash to the same value. */
  predicate LosesHash(t: Tracked, op: Op) {
    LosesHashWord(t, op) && t.returned.Some? && op.addr + 2 * WORD_BYTES != WORD_BYTES * t.returned.value
  }

  lemma StepKeepsHash(t: Tracked, size: nat, op: Op)
    requires HashKept(t) && (op.Move? ==> op.addr % WORD_BYTES == 0)
    ensures HashKept(Apply(t, size, op)) <==> !LosesHash(t, op)
  {
    if op.Move? && t.returned.Some? { MoveKeepsHash(t, size, op.addr); }
  }

  /** Over any run every hash handed out is kept throughout exactly if no move loses one. */
  lemma {:induction false} HashKeptExactly(ts: seq<Tracked>, size: nat, ops: seq<Op>)
    requires IsRun(ts, size, ops) && HashKept(ts[0])
    requires forall k :: 0 <= k < |ops| && ops[k].Move? ==> ops[k].addr % WORD_BYTES == 0
    ensures (forall k :: 0 <= k <= |ops| ==> HashKept(ts[k])) <==>
            (forall k :: 0 <= k < |ops| ==> !LosesHash(ts[k], ops[k]))
  {
    hide HashKept, LosesHash, Apply;
    if forall k :: 0 <= k < |ops| ==> !LosesHash(ts[k], ops[k]) {
      var n := 0;
      while n < |ops|
        invariant n <= |ops| && forall j :: 0 <= j <= n ==> HashKept(ts[j])
      {
        StepKeepsHash(ts[n], size, ops[n]);
        n := n + 1;
      }
    } else {
      var k :| 0 <= k < |ops| && LosesHash(ts[k], ops[k]);
      if HashKept(ts[k]) { StepKeepsHash(ts[k], size, ops[k]); }
      assert !(HashKept(ts[k]) && HashKept(ts[k + 1]));
    }
  }

  /** Hash an object, move it twice: the hash it returned is lost, and so is its layout. */
  lemma SecondMoveLosesHash(addr: nat, meta: nat, size: nat, payload: seq<nat>, first: nat, second: nat,
                            ts: seq<Tracked>)
    requires addr % WORD_BYTES == 0 && second % WORD_BYTES == 0 && second + WORD_BYTES != addr
    requires IsRun(ts, size, [Hash, Move(first), Move(second)]) && ts[0] == Allocated(addr, meta, size, payload)
    ensures !HashKept(ts[3]) && !LayoutKept(ts[3], size)
  {
    assert ts[1] == Apply(ts[0], size, Hash) && ts[2] == Apply(ts[1], size, Move(first));
    MoveKeepsLayout(ts[2], size, second);
    MoveKeepsHash(ts[2], size, second);
  }

  /** An object that was never hashed loses its layout at its third move. */
  lemma ThirdMoveLosesLayout(addr: nat, meta: nat, size: nat, payload: seq<nat>, first: nat, second: nat, third: nat,
                             ts: seq<Tracked>)
    requires IsRun(ts, size, [Move(first), Move(second), Move(third)]) && ts[0] == Allocated(addr, meta, size, payload)
    ensures !LayoutKept(ts[3], size)
  {
    assert ts[1] == Apply(ts[0], size, Move(first)) && ts[2] == Apply(ts[1], size, Move(second));
    MoveKeepsLayout(ts[2], size, third);
  }
}

/** The object header word: 62 bits of metadata below 2 bits of hash state. */
module Header {
  import opened Bits

  datatype HashState = Unhashed | Hashed | HashedAndMoved

  const HEADER_BYTES: nat := 8

  /** From the start of an object that carries no hash word to its reference. */
  const OBJECT_REF_OFFSET: nat := HEADER_BYTES

  const HASHCODE_OFFSET: int := -16

  const METADATA_BITS: nat := 62
  const HASH_BITS: nat := 2

  /** 2^62, the first value that is too large for the metadata field. */
  const META_LIMIT: nat := 0x4000_0000_0000_0000

  /** Reading and replacing the `bits` bits of a word from bit `shift` on. */
  function ReadField(w: nat, shift: nat, bits: nat): nat {
    And(Shr(w, shift), Pow2(bits) - 1)
  }

  function UpdateField(w: nat, shift: nat, bits: nat, v: nat): nat
    requires Shl(Pow2(bits) - 1, shift) < WORD
  {
    Or(Shl(And(v, Pow2(bits) - 1), shift), And(w, WORD - 1 - Shl(Pow2(bits) - 1, shift)))
  }

  function ToBits(s: HashState): nat {
    match s
    case Unhashed => 0
    case Hashed => 1
    case HashedAndMoved => 2
  }

  /** The fourth bit pattern is unreachable in the source. */
  predicate ValidHeader(w: nat) {
    w < 3 * META_LIMIT
  }

  function Metadata(w: nat): nat {
    ReadField(w, 0, METADATA_BITS)
  }

  function StateOf(w: nat): HashState {
    var b := ReadField(w, METADATA_BITS, HASH_BITS);
    if b == 0 then Unhashed else if b == 1 then Hashed else HashedAndMoved
  }

  lemma FieldsFit()
    ensures Pow2(METADATA_BITS) == META_LIMIT && Pow2(HASH_BITS) == 4
    ensures Shl(Pow2(METADATA_BITS) - 1, 0) < WORD && Shl(Pow2(HASH_BITS) - 1, METADATA_BITS) < WORD
  {
    Pow2Word();
    Pow2Add(62, 2);
    Pow2Add(1, 1);
    assert Pow2(1) == 2;
  }

  /** `set_hash_state`. */
  function SetState(w: nat, s: HashState): nat {
    FieldsFit();
    UpdateField(w, METADATA_BITS, HASH_BITS, ToBits(s))
  }

  /** `set_metadata`. */
  function SetMetadata(w: nat, m: nat): nat {
    FieldsFit();
    UpdateField(w, 0, METADATA_BITS, m)
  }

  /** `HeapObjectHeader::new` stores the metadata as the whole word. */
  function NewHeader(m: nat): nat {
    m
  }

  // ---------------------------------------------------------------- two independent variables

  /** A header is a pair. */
  lemma HeaderIsPair(w: nat)
    requires ValidHeader(w)
    ensures Metadata(w) == w % META_LIMIT && Metadata(w) < META_LIMIT
    ensures w == Metadata(w) + META_LIMIT * ToBits(StateOf(w))
  {
    FieldsFit();
    assert Pow2(0) == 1;
    AndLowMask(Shr(w, 0), 62);
    AndLowMask(Shr(w, 62), 2);
    assert Shr(w, 62) < 3;
  }

  lemma PairIsHeader(m: nat, s: HashState)
    requires m < META_LIMIT
    ensures var w := m + META_LIMIT * ToBits(s); ValidHeader(w) && Metadata(w) == m && StateOf(w) == s
  {
    HeaderIsPair(m + META_LIMIT * ToBits(s));
  }

  lemma SetStateValue(w: nat, s: HashState)
    requires ValidHeader(w)
    ensures SetState(w, s) == Metadata(w) + META_LIMIT * ToBits(s)
  {
    FieldsFit();
    HeaderIsPair(w);
    AndLowMask(ToBits(s), 2);
    AndLowMask(w, 62);
    assert WORD - 1 - Shl(Pow2(HASH_BITS) - 1, METADATA_BITS) == META_LIMIT - 1;
    OrParts(ToBits(s), w % META_LIMIT, 62);
  }

  /** Setting the hash state leaves the metadata alone. */
  lemma SetStateKeepsMetadata(w: nat, s: HashState)
    requires ValidHeader(w)
    ensures ValidHeader(SetState(w, s)) && StateOf(SetState(w, s)) == s && Metadata(SetState(w, s)) == Metadata(w)
  {
    SetStateValue(w, s);
    HeaderIsPair(w);
    PairIsHeader(Metadata(w), s);
  }

  lemma SetMetadataValue(w: nat, m: nat)
    requires ValidHeader(w) && m < META_LIMIT
    ensures SetMetadata(w, m) == m + META_LIMIT * ToBits(StateOf(w))
  {
    FieldsFit();
    HeaderIsPair(w);
    Pow2Word();
    assert Pow2(0) == 1;
    AndLowMask(m, 62);
    SmallMod(m, META_LIMIT);
    AndHighMask(w, 62, 64);
    assert WORD - 1 - Shl(Pow2(METADATA_BITS) - 1, 0) == WORD - META_LIMIT;
    OrCommutes(m, w - w % META_LIMIT);
    OrParts(ToBits(StateOf(w)), m, 62);
  }

  lemma {:induction false} OrCommutes(x: nat, y: nat)
    ensures Or(x, y) == Or(y, x)
    decreases x + y
  {
    if x > 0 && y > 0 { OrCommutes(x / 2, y / 2); }
  }

  /** Setting the metadata leaves the hash state alone. */
  lemma SetMetadataKeepsState(w: nat, m: nat)
    requires ValidHeader(w) && m < META_LIMIT
    ensures ValidHeader(SetMetadata(w, m)) && Metadata(SetMetadata(w, m)) == m
    ensures StateOf(SetMetadata(w, m)) == StateOf(w)
  {
    SetMetadataValue(w, m);
    PairIsHeader(m, StateOf(w));
  }

  /** The hash state is the top two bits of the word, 0 for unhashed, 1 for hashed and 2 for hashed and
      moved, and metadata is the rest; storing either leaves the bits of the other as they are. */
  lemma FieldsAreBits(w: nat, s: HashState, m: nat)
    requires ValidHeader(w) && m < META_LIMIT
    ensures StateOf(w) == Unhashed <==> w / 0x4000_0000_0000_0000 == 0
    ensures StateOf(w) == Hashed <==> w / 0x4000_0000_0000_0000 == 1
    ensures StateOf(w) == HashedAndMoved <==> w / 0x4000_0000_0000_0000 == 2
    ensures Metadata(w) == w % 0x4000_0000_0000_0000
    ensures SetState(w, s) == w % 0x4000_0000_0000_0000 +
              (match s
               case Unhashed => 0
               case Hashed => 0x4000_0000_0000_0000
               case HashedAndMoved => 0x8000_0000_0000_0000)
    ensures SetMetadata(w, m) == m + w - w % 0x4000_0000_0000_0000
  {
    HeaderIsPair(w);
    SetStateValue(w, s);
    SetMetadataValue(w, m);
  }

  /** A new header starts out unhashed exactly if its metadata fits the field. */
  lemma NewHeaderIsUnhashed(m: nat)
    requires ValidHeader(m)
    ensures StateOf(NewHeader(m)) == Unhashed && Metadata(NewHeader(m)) == m <==> m < META_LIMIT
  {
    HeaderIsPair(m);
  }

  datatype HeaderOp = PutMetadata(m: nat) | PutState(s: HashState)

  predicate FitsField(op: HeaderOp) {
    op.PutMetadata? ==> op.m < META_LIMIT
  }

  function Apply(w: nat, op: HeaderOp): nat {
    match op
    case PutMetadata(m) => SetMetadata(w, m)
    case PutState(s) => SetState(w, s)
  }

  function ApplyAll(w: nat, ops: seq<HeaderOp>): nat {
    if ops == [] then w else Apply(ApplyAll(w, ops[..|ops| - 1]), ops[|ops| - 1])
  }

  /** The metadata last written, the hash state last written. */
  function LastMetadata(m: nat, ops: seq<HeaderOp>): nat {
    if ops == [] then m
    else if ops[|ops| - 1].PutMetadata? then ops[|ops| - 1].m
    else LastMetadata(m, ops[..|ops| - 1])
  }

  function LastState(s: HashState, ops: seq<HeaderOp>): HashState {
    if ops == [] then s
    else if ops[|ops| - 1].PutState? then ops[|ops| - 1].s
    else LastState(s, ops[..|ops| - 1])
  }

  /** Over any sequence of writes the word behaves as two independent variables. */
  lemma {:induction false} TwoVariables(w: nat, ops: seq<HeaderOp>)
    requires ValidHeader(w) && forall i :: 0 <= i < |ops| ==> FitsField(ops[i])
    ensures ValidHeader(ApplyAll(w, ops))
    ensures Metadata(ApplyAll(w, ops)) == LastMetadata(Metadata(w), ops)
    ensures StateOf(ApplyAll(w, ops)) == LastState(StateOf(w), ops)
  {
    if ops != [] {
      var rest, op := ops[..|ops| - 1], ops[|ops| - 1];
      TwoVariables(w, rest);
      match op
      case PutMetadata(m) => SetMetadataKeepsState(ApplyAll(w, rest), m);
      case PutState(s) => SetStateKeepsMetadata(ApplyAll(w, rest), s);
    }
  }
}

/** The side table with one bit for each 8 bytes of memory: the bit of an address is bit
    `(addr >> 3) & 7` of byte `addr >> 6`. */
module VoBitmap {
  import opened Bits

  const BYTE: nat := 256

  function ByteIndex(addr: nat): nat {
    Shr(addr, 6)
  }

  function BitIndex(addr: nat): nat {
    And(Shr(addr, 3), 7)
  }

  /** The 8-byte granule an address lies in, which is all the table can tell apart. */
  function Granule(addr: nat): nat {
    addr / 8
  }

  lemma SmallPowers()
    ensures Pow2(3) == 8 && Pow2(6) == 64 && Pow2(8) == BYTE
  {
    hide Pow2;
    Pow2One();
    Pow2Add(1, 1);
    Pow2Add(2, 1);
    Pow2Add(3, 3);
    Pow2Add(6, 2);
  }

  lemma IndexInNumbers(addr: nat)
    ensures ByteIndex(addr) == addr / 64 && BitIndex(addr) == addr / 8 % 8 && BitIndex(addr) < 8
    ensures Granule(addr) == 8 * ByteIndex(addr) + BitIndex(addr)
  {
    hide Pow2;
    hide And;
    hide Shr;
    SmallPowers();
    ShiftDivides(addr, 6, 64);
    ShiftDivides(addr, 3, 8);
    AndLowMask(addr / 8, 3);
  }

  lemma ShiftDivides(x: nat, k: nat, p: nat)
    requires Pow2(k) == p
    ensures Shr(x, k) == x / p
  {
  }

  /** Two addresses share a bit exactly if they lie in the same granule: 8-aligned addresses and bits
      correspond one to one. */
  lemma BitsAreGranules(x: nat, y: nat)
    ensures ByteIndex(x) == ByteIndex(y) && BitIndex(x) == BitIndex(y) <==> Granule(x) == Granule(y)
    ensures x % 8 == 0 && y % 8 == 0 ==> (ByteIndex(x) == ByteIndex(y) && BitIndex(x) == BitIndex(y) <==> x == y)
  {
    hide ByteIndex;
    hide BitIndex;
    IndexInNumbers(x);
    IndexInNumbers(y);
  }

  /** Every bit of every byte is the bit of an 8-aligned address. */
  lemma EveryBitHasAnAddress(byte: nat, bit: nat)
    requires bit < 8
    ensures var addr := 64 * byte + 8 * bit; addr % 8 == 0 && ByteIndex(addr) == byte && BitIndex(addr) == bit
  {
    hide ByteIndex;
    hide BitIndex;
    IndexInNumbers(64 * byte + 8 * bit);
  }

  /** What `set_vo_bit` makes of the byte. */
  function WithBit(byte: nat, addr: nat): nat {
    Or(byte, Shl(1, BitIndex(addr)))
  }

  /** The marked granules, read off the bytes. */
  predicate IsMarked(bytes: seq<nat>, g: nat) {
    g / 8 < |bytes| && Bit(bytes[g / 8], g % 8)
  }

  predicate AreBytes(bytes: seq<nat>) {
    forall i :: 0 <= i < |bytes| ==> bytes[i] < BYTE
  }

  lemma WithBitIsByte(byte: nat, addr: nat)
    requires byte < BYTE
    ensures WithBit(byte, addr) < BYTE
  {
    SmallPowers();
    IndexInNumbers(addr);
    Pow2Mono(BitIndex(addr), 7);
    assert Pow2(8) == 2 * Pow2(7);
    OrBound(byte, Shl(1, BitIndex(addr)), 8);
  }

  /** One update marks one granule more and touches no other bit. */
  lemma WithBitMarksOne(bytes: seq<nat>, addr: nat, g: nat)
    requires ByteIndex(addr) < |bytes|
    ensures var after := bytes[ByteIndex(addr) := WithBit(bytes[ByteIndex(addr)], addr)];
            IsMarked(after, g) <==> g == Granule(addr) || IsMarked(bytes, g)
  {
    IndexInNumbers(addr);
    if g / 8 == ByteIndex(addr) {
      OrSetsBit(bytes[g / 8], BitIndex(addr), g % 8);
    }
  }

  class VoBitmap {
    const bytes: array<nat>

    ghost predicate Valid()
      reads bytes
    {
      AreBytes(bytes[..])
    }

    constructor (length: nat)
      ensures Valid() && fresh(bytes) && bytes.Length == length
      ensures forall g: nat :: !IsMarked(bytes[..], g)
    {
      bytes := new nat[length](_ => 0);
    }

    /** `set_vo_bit`. */
    method SetVoBit(addr: nat)
      requires Valid() && ByteIndex(addr) < bytes.Length
      modifies bytes
      ensures Valid()
      ensures forall g: nat :: IsMarked(bytes[..], g) <==> g == Granule(addr) || IsMarked(old(bytes[..]), g)
    {
      var meta := ByteIndex(addr);
      var byte := bytes[meta];
      var mask := Shl(1, BitIndex(addr));
      ghost var was := bytes[..];
      assert was[meta] == byte;
      WithBitIsByte(byte, addr);
      bytes[meta] := Or(byte, mask);
      assert bytes[..] == was[meta := WithBit(byte, addr)];
      forall g: nat
        ensures IsMarked(bytes[..], g) <==> g == Granule(addr) || IsMarked(was, g)
      {
        WithBitMarksOne(was, addr, g);
      }
    }

    /** The test in `object_reference_write_post`, over its own table. */
    method TakesSlowPath(addr: nat) returns (slow: bool)
      requires Valid() && ByteIndex(addr) < bytes.Length
      ensures slow <==> IsMarked(bytes[..], Granule(addr))
    {
      var metaAddr := ByteIndex(addr);
      var shift := And(Shr(addr, 3), 7);
      IndexInNumbers(addr);
      ShiftedBit(bytes[metaAddr], shift);
      slow := And(Shr(bytes[metaAddr], shift), 1) == 1;
    }
  }

  // ---------------------------------------------------------------- runs

  function SetAll(bytes: seq<nat>, addrs: seq<nat>): (r: seq<nat>)
    requires forall i :: 0 <= i < |addrs| ==> ByteIndex(addrs[i]) < |bytes|
    ensures |r| == |bytes|
  {
    if addrs == [] then bytes
    else
      var addr := addrs[|addrs| - 1];
      var before := SetAll(bytes, addrs[..|addrs| - 1]);
      before[ByteIndex(addr) := WithBit(before[ByteIndex(addr)], addr)]
  }

  /** After any run of updates, an 8-aligned address is marked exactly if it was marked before or is
      one of those that were set. */
  lemma {:induction false} TableIsTheSetOfAddresses(bytes: seq<nat>, addrs: seq<nat>, x: nat)
    requires x % 8 == 0 && forall i :: 0 <= i < |addrs| ==> addrs[i] % 8 == 0 && ByteIndex(addrs[i]) < |bytes|
    ensures IsMarked(SetAll(bytes, addrs), Granule(x)) <==> x in addrs || IsMarked(bytes, Granule(x))
  {
    if addrs != [] {
      var rest, addr := addrs[..|addrs| - 1], addrs[|addrs| - 1];
      TableIsTheSetOfAddresses(bytes, rest, x);
      WithBitMarksOne(SetAll(bytes, rest), addr, Granule(x));
      assert addrs == rest + [addr];
    }
  }
}

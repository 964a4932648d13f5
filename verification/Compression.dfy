/** Compressed object pointers: 32-bit values scaled by a shift and offset by a base, which `init`
    chooses from the bounds of the heap. */
module Compression {
  import opened Bits

  const NULL: nat := 0
  const PAGE: nat := 4096
  const U32_LIMIT: nat := 0x1_0000_0000

  datatype Config = Config(base: nat, shift: nat, start: nat, end: nat)

  /** What `init` decides; the least alignment of objects is `2^minLog`. */
  function Chosen(tagged: bool, start: nat, end: nat, minLog: nat): Config
    requires PAGE <= start
  {
    if tagged then Config(start - PAGE, 2, start, end)
    else
      Config(if end <= Shl(U32_LIMIT, minLog) then 0 else start - PAGE,
             if end > U32_LIMIT then minLog else 0, start, end)
  }

  class CompressedOps {
    var config: Config

    constructor ()
      ensures config == Config(0, 0, 0, 0)
    {
      config := Config(0, 0, 0, 0);
    }

    method Init(tagged: bool, start: nat, end: nat, minLog: nat)
      requires PAGE <= start
      modifies this
      ensures config == Chosen(tagged, start, end, minLog)
    {
      if tagged {
        config := Config(start - PAGE, 2, start, end);
        return;
      }
      var shift := 0;
      if end > U32_LIMIT {
        shift := minLog;
      }
      var max := Shl(U32_LIMIT, minLog);
      var base := 0;
      if end > max {
        base := start - PAGE;
      }
      config := Config(base, shift, start, end);
    }
  }

  /** `encode`: the cast to 32 bits drops what does not fit. */
  function Encode(c: Config, addr: nat): nat
    requires addr != NULL ==> c.base <= addr
  {
    if addr == NULL then 0 else Shr(addr - c.base, c.shift) % U32_LIMIT
  }

  function DecodeRaw(c: Config, v: nat): nat {
    c.base + Shl(v, c.shift)
  }

  function Decode(c: Config, v: nat): nat {
    if v == 0 then NULL else DecodeRaw(c, v)
  }

  // ---------------------------------------------------------------- one address

  /** The addresses the 32-bit values can stand for. */
  predicate Encodable(c: Config, addr: nat) {
    c.base < addr && (addr - c.base) % Pow2(c.shift) == 0 && addr - c.base < U32_LIMIT * Pow2(c.shift)
  }

  /** The round trip exactly characterised: null, and the addresses the values can stand for. */
  lemma RoundTripExactly(c: Config, addr: nat)
    requires addr != NULL ==> c.base <= addr
    ensures Decode(c, Encode(c, addr)) == addr <==> addr == NULL || Encodable(c, addr)
  {
    if addr != NULL {
      var d := addr - c.base;
      TruncatedQuotient(d, Pow2(c.shift));
      if d == 0 { QuotientOfSmaller(0, Pow2(c.shift)); }
    }
  }

  /** Scaling the low 32 bits of a quotient back up. */
  lemma TruncatedQuotient(d: nat, p: nat)
    requires p > 0
    ensures d / p >= 0 && ((d / p % U32_LIMIT) * p == d <==> d % p == 0 && d < U32_LIMIT * p)
  {
    QuotientNonNegative(d, p);
    Truncated(d, p, d / p, d % p);
  }

  lemma Truncated(d: nat, p: nat, q: nat, r: nat)
    requires d == p * q + r && r < p
    ensures (q % U32_LIMIT) * p == d <==> r == 0 && d < U32_LIMIT * p
  {
    QuotientBound(d, p, q, r);
    if q >= U32_LIMIT {
      TruncationLoses(q, p);
    }
  }

  lemma QuotientBound(d: nat, p: nat, q: nat, r: nat)
    requires d == q * p + r && r < p
    ensures q < U32_LIMIT <==> d < U32_LIMIT * p
  {
    MulGrows(U32_LIMIT - q, p);
    assert (U32_LIMIT - q) * p == U32_LIMIT * p - q * p;
  }

  lemma TruncationLoses(q: nat, p: nat)
    requires q >= U32_LIMIT && p > 0
    ensures (q % U32_LIMIT) * p < q * p
  {
    MulGrows(q - q % U32_LIMIT, p);
    assert (q - q % U32_LIMIT) * p == q * p - (q % U32_LIMIT) * p;
  }

  /** Among encodable addresses the order is kept, distinct addresses stay distinct, and none of them
      is taken for null. */
  lemma OrderPreserved(c: Config, x: nat, y: nat)
    requires Encodable(c, x) && Encodable(c, y)
    ensures Encode(c, x) < Encode(c, y) <==> x < y
    ensures Encode(c, x) == Encode(c, y) <==> x == y
    ensures Encode(c, x) != 0
  {
    RoundTripExactly(c, x);
    RoundTripExactly(c, y);
    ScalingIsMonotone(Encode(c, x), Encode(c, y), Pow2(c.shift));
  }

  lemma ScalingIsMonotone(a: int, b: int, p: int)
    requires p > 0
    ensures a < b <==> a * p < b * p
  {
    MulGrows(b - a, p);
    assert (b - a) * p == b * p - a * p;
  }

  // ---------------------------------------------------------------- the whole heap

  /** Objects are aligned to `2^align`: 16 bytes with tagging, the least alignment without. */
  function ObjectAlignment(tagged: bool, minLog: nat): nat {
    if tagged then 4 else minLog
  }

  ghost predicate HeapRoundTrips(c: Config, align: nat) {
    forall addr: nat :: c.start <= addr < c.end && addr % Pow2(align) == 0 && c.base <= addr ==>
      Decode(c, Encode(c, addr)) == addr
  }

  lemma SmallPowers()
    ensures Pow2(2) == 4 && Pow2(4) == 16 && Pow2(12) == PAGE
  {
    hide Pow2;
    Pow2One();
    Pow2Add(1, 1);
    Pow2Add(2, 2);
    Pow2Add(4, 4);
    Pow2Add(8, 4);
  }

  /** The scale divides the alignment of objects, which divides a page. */
  lemma Scales(tagged: bool, end: nat, minLog: nat, shift: nat)
    requires minLog <= 12 && shift == (if tagged then 2 else if end > U32_LIMIT then minLog else 0)
    ensures var a := ObjectAlignment(tagged, minLog);
            && shift <= a <= 12 && Pow2(a) == Pow2(a - shift) * Pow2(shift) && PAGE == Pow2(12 - a) * Pow2(a)
  {
    hide Pow2;
    SmallPowers();
    var a := ObjectAlignment(tagged, minLog);
    Pow2Add(a - shift, shift);
    Pow2Add(12 - a, a);
  }

  lemma MultipleOfFactor(x: nat, p: nat, q: nat)
    requires p > 0 && q > 0 && x % (q * p) == 0
    ensures x % p == 0
  {
    ModOfMod(x, p, q);
  }

  lemma DifferenceIsMultiple(x: nat, y: nat, p: nat)
    requires p > 0 && x <= y && x % p == 0 && y % p == 0
    ensures (y - x) % p == 0
  {
    assert y == p * (y / p) && x == p * (x / p);
    assert y - x == (y / p - x / p) * p;
    DivModUnique(y - x, p, y / p - x / p, 0);
  }

  /** Every object of a page-aligned heap survives the round trip exactly if the heap, measured from
      the base, is no longer than 2^32 units. */
  lemma HeapRoundTripsExactly(tagged: bool, start: nat, end: nat, minLog: nat)
    requires minLog <= 12 && PAGE <= start < end && start % PAGE == 0 && end % PAGE == 0
    ensures var c := Chosen(tagged, start, end, minLog);
            HeapRoundTrips(c, ObjectAlignment(tagged, minLog)) <==> end - c.base <= U32_LIMIT * Pow2(c.shift)
  {
    var c := Chosen(tagged, start, end, minLog);
    var a := ObjectAlignment(tagged, minLog);
    var limit := U32_LIMIT * Pow2(c.shift);
    Scales(tagged, end, minLog, c.shift);
    BaseIsAligned(c, a);
    if end - c.base <= limit {
      forall addr: nat | start <= addr < end && addr % Pow2(a) == 0 && c.base <= addr
        ensures Decode(c, Encode(c, addr)) == addr
      {
        InHeapIsEncodable(c, a, addr);
        RoundTripExactly(c, addr);
      }
    } else {
      var last := end - Pow2(a);
      LastObject(c, a, last);
      RoundTripExactly(c, last);
    }
  }

  lemma BaseIsAligned(c: Config, a: nat)
    requires a <= 12 && PAGE == Pow2(12 - a) * Pow2(a) && PAGE <= c.start && c.start % PAGE == 0
    requires (c.base == 0 || c.base == c.start - PAGE)
    ensures c.base % PAGE == 0 && c.base % Pow2(a) == 0
  {
    MultipleOfFactor(c.base, Pow2(a), Pow2(12 - a));
  }

  lemma InHeapIsEncodable(c: Config, a: nat, addr: nat)
    requires c.shift <= a && Pow2(a) == Pow2(a - c.shift) * Pow2(c.shift)
    requires c.base % Pow2(a) == 0 && addr % Pow2(a) == 0 && c.base < addr < c.end
    requires c.end - c.base <= U32_LIMIT * Pow2(c.shift)
    ensures Encodable(c, addr)
  {
    DifferenceIsMultiple(c.base, addr, Pow2(a));
    MultipleOfFactor(addr - c.base, Pow2(c.shift), Pow2(a - c.shift));
  }

  /** In a heap that is too long, the last object is out of range. */
  lemma LastObject(c: Config, a: nat, last: int)
    requires a <= 12 && PAGE == Pow2(12 - a) * Pow2(a) && last == c.end - Pow2(a)
    requires PAGE <= c.start < c.end && c.start % PAGE == 0 && c.end % PAGE == 0 && c.base % PAGE == 0
    requires c.base < c.start
    requires c.end - c.base > U32_LIMIT * Pow2(c.shift)
    ensures c.start <= last < c.end && last % Pow2(a) == 0 && !Encodable(c, last)
  {
    var unit, limit := Pow2(a), U32_LIMIT * Pow2(c.shift);
    LimitIsPages(Pow2(c.shift));
    MulGrows(Pow2(12 - a), unit);
    MultipleOfFactor(c.end, unit, Pow2(12 - a));
    LastInPages(c.base, c.start, c.end, unit, limit);
  }

  lemma LimitIsPages(p: nat)
    ensures (U32_LIMIT * p) % PAGE == 0
  {
    assert U32_LIMIT * p == (0x10_0000 * p) * PAGE;
    DivModUnique(U32_LIMIT * p, PAGE, 0x10_0000 * p, 0);
  }

  lemma LastInPages(base: nat, start: nat, end: nat, unit: nat, limit: nat)
    requires 0 < unit <= PAGE && end % unit == 0 && start < end
    requires start % PAGE == 0 && end % PAGE == 0 && base % PAGE == 0 && limit % PAGE == 0 && end - base > limit
    ensures start <= end - unit && (end - unit) % unit == 0 && end - unit - base >= limit
  {
    PagesApart(start, end);
    PagesApart(base + limit, end);
    OneUnitLess(end, unit);
  }

  lemma PagesApart(x: nat, y: nat)
    requires x % PAGE == 0 && y % PAGE == 0 && x < y
    ensures y - x >= PAGE
  {
  }

  lemma OneUnitLess(x: nat, unit: nat)
    requires 0 < unit <= x && x % unit == 0
    ensures (x - unit) % unit == 0
  {
    DivModUnique(unit, unit, 1, 0);
    DifferenceIsMultiple(unit, x, unit);
  }

  /** Whenever `init` picks a zero base the whole heap is in range; that it fits is an assumption only
      in the two regimes with a base. */
  lemma ZeroBaseAlwaysFits(start: nat, end: nat, minLog: nat)
    requires minLog <= 12 && PAGE <= start < end && start % PAGE == 0 && end % PAGE == 0
    requires end <= Shl(U32_LIMIT, minLog)
    ensures HeapRoundTrips(Chosen(false, start, end, minLog), minLog)
  {
    assert Pow2(0) == 1;
    HeapRoundTripsExactly(false, start, end, minLog);
  }

  /** The heaps `init` can serve, by their bounds alone: with tagging those of less than 16 GiB by a page;
      without, those below 2^32 units of the least alignment and, above that, those of fewer than that
      many units by a page. */
  predicate HeapFits(tagged: bool, start: nat, end: nat, minLog: nat) {
    if tagged then end - start + 4096 <= 0x4_0000_0000
    else
      end <= 0x1_0000_0000 * Pow2(minLog) || end - start + 4096 <= 0x1_0000_0000 * Pow2(minLog)
  }

  /** Every aligned address of the heap is above the base and survives the round trip exactly if its
      bounds are among those. */
  lemma HeapFitsExactly(tagged: bool, start: nat, end: nat, minLog: nat)
    requires minLog <= 12 && PAGE <= start < end && start % PAGE == 0 && end % PAGE == 0
    ensures var c := Chosen(tagged, start, end, minLog);
            && c.base < start
            && (HeapRoundTrips(c, ObjectAlignment(tagged, minLog)) <==> HeapFits(tagged, start, end, minLog))
  {
    hide HeapRoundTrips;
    SmallPowers();
    assert Pow2(0) == 1;
    HeapRoundTripsExactly(tagged, start, end, minLog);
    MulGrows(Pow2(minLog) - 1, U32_LIMIT);
  }

  /** A heap below 4 GiB needs no scaling: without tagging the 32-bit value of an object is its address. */
  lemma LowHeapIsUnscaled(start: nat, end: nat, minLog: nat, addr: nat)
    requires PAGE <= start && end <= 0x1_0000_0000 && start <= addr < end
    ensures Encode(Chosen(false, start, end, minLog), addr) == addr
    ensures Decode(Chosen(false, start, end, minLog), addr) == addr
  {
    assert Pow2(0) == 1;
    MulGrows(Pow2(minLog) - 1, U32_LIMIT);
  }

  /** With tagging a heap of 16 GiB is already too long: an object in it is lost. */
  lemma TaggedHeapTooLong(start: nat)
    requires PAGE <= start && start % PAGE == 0
    ensures !HeapRoundTrips(Chosen(true, start, start + 4 * U32_LIMIT, 3), 4)
  {
    SmallPowers();
    HeapRoundTripsExactly(true, start, start + 4 * U32_LIMIT, 3);
  }
}

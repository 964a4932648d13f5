/** Alignment by two's-complement masks. */
module Align {
  import opened Bits

  /** `round_down`: `x & -align`. */
  function RoundDown(x: nat, align: nat): nat
    requires align < WORD
  {
    And(x, Neg(align))
  }

  /** `round_up`, for sums that fit the word. */
  function RoundUp(x: nat, align: nat, offset: nat): int
    requires 0 < align < WORD
  {
    RoundDown(x + align - 1 + offset, align) - offset
  }

  /** `align_allocation_no_fill`: the distance is the low bits of `-offset - region`. */
  function AlignAllocation(region: nat, alignment: nat, offset: nat): nat
    requires region < WORD && 0 < alignment && offset < WORD
  {
    region + And(WrappingSub(Neg(offset), region), alignment - 1)
  }

  /** MMTk's `raw_align_up`: the least multiple of `alignment` that is not below `x`. */
  function AlignUp(x: nat, alignment: nat): nat
    requires 0 < alignment
  {
    (x + alignment - 1) / alignment * alignment
  }

  predicate AlignedAt(x: nat, p: nat, offset: nat)
    requires p > 0
  {
    (x + offset) % p == 0
  }

  /** `r` is the least address at or above `region` with `r + offset` divisible by `p`. */
  ghost predicate LeastAligned(r: nat, region: nat, p: nat, offset: nat)
    requires p > 0
  {
    && region <= r && AlignedAt(r, p, offset)
    && forall x: nat :: region <= x && AlignedAt(x, p, offset) ==> r <= x
  }

  lemma AlignUpIsLeast(x: nat, p: nat)
    requires p > 0
    ensures LeastAligned(AlignUp(x, p), x, p, 0)
  {
    var q, r := (x + p - 1) / p, (x + p - 1) % p;
    assert x + p - 1 == p * q + r;
    DivModUnique(q * p, p, q, 0);
    NearestIsLeast(AlignUp(x, p), x, p, 0);
  }

  /** An aligned address less than `p` above `region` is the least one. */
  lemma NearestIsLeast(r: nat, region: nat, p: nat, offset: nat)
    requires p > 0 && region <= r < region + p && AlignedAt(r, p, offset)
    ensures LeastAligned(r, region, p, offset)
  {
    forall x: nat | region <= x && AlignedAt(x, p, offset)
      ensures r <= x
    {
      MultiplesApart(r + offset, x + offset, p);
    }
  }

  lemma MultiplesApart(u: nat, v: nat, p: nat)
    requires p > 0 && u % p == 0 && v % p == 0
    ensures u > v ==> u >= v + p
  {
    var a, b := u / p, v / p;
    assert u == p * a && v == p * b;
    assert u - v == (a - b) * p;
    MulGrows(a - b, p);
    if a == b { assert u == v; }
  }

  /** The mask form finds the least aligned address, for every power of two. */
  lemma AlignAllocationIsLeast(region: nat, k: nat, offset: nat)
    requires region < WORD && offset < WORD && k < 64
    ensures LeastAligned(AlignAllocation(region, Pow2(k), offset), region, Pow2(k), offset)
  {
    hide LeastAligned;
    hide And;
    hide WrappingSub;
    hide Pow2;
    Pow2Word();
    Pow2Add(k, 64 - k);
    AndLowMask(WrappingSub(Neg(offset), region), k);
    MaskedIsNearest(region, Pow2(k), Pow2(64 - k), offset, And(WrappingSub(Neg(offset), region), Pow2(k) - 1));
    NearestIsLeast(AlignAllocation(region, Pow2(k), offset), region, Pow2(k), offset);
  }

  lemma MaskedIsNearest(region: nat, p: nat, q: nat, offset: nat, d: nat)
    requires region < WORD && offset < WORD && p > 0 && q > 0 && p * q == WORD
    requires d == WrappingSub(Neg(offset), region) % p
    ensures d < p && AlignedAt(region + d, p, offset)
  {
    hide Neg;
    ModOfMod(Neg(offset) + WORD - region, p, q);
    SumIsMultiple(region, offset, d, p, q);
  }

  lemma SumIsMultiple(region: nat, offset: nat, d: nat, p: nat, q: nat)
    requires p > 0 && q > 0 && p * q == WORD && region < WORD && offset < WORD
    requires d == (Neg(offset) + WORD - region) % p
    ensures (region + d + offset) % p == 0
  {
    var s := Neg(offset) + WORD - region;
    var e := if offset == 0 then 0 else 1;
    assert Neg(offset) == e * WORD - offset;
    assert s == p * (s / p) + d;
    assert region + d + offset == (e + 1) * WORD - p * (s / p);
    assert (e + 1) * WORD == ((e + 1) * q) * p by { assert (e + 1) * (p * q) == ((e + 1) * q) * p; }
    DivModUnique(region + d + offset, p, (e + 1) * q - s / p, 0);
  }

  lemma AlignmentFits(k: nat)
    requires k < 64
    ensures Pow2(64) == WORD && 0 < Pow2(k) < WORD
  {
    Pow2Word();
    Pow2Mono(k, 63);
    assert Pow2(64) == 2 * Pow2(63);
  }

  /** `round_down` gives the greatest multiple at or below `x`. */
  lemma RoundDownIsMultiple(x: nat, k: nat)
    requires x < WORD && k < 64
    ensures Pow2(k) < WORD && RoundDown(x, Pow2(k)) == x - x % Pow2(k)
  {
    AlignmentFits(k);
    AndHighMask(x, k, 64);
    NegOf(Pow2(k));
  }

  lemma NegOf(p: nat)
    requires 0 < p < WORD
    ensures Neg(p) == WORD - p
  {
  }

  /** `round_up` gives the least aligned address. */
  lemma RoundUpIsLeast(x: nat, k: nat, offset: nat)
    requires k < 64 && x + Pow2(k) - 1 + offset < WORD
    ensures Pow2(k) < WORD && RoundUp(x, Pow2(k), offset) >= x
    ensures LeastAligned(RoundUp(x, Pow2(k), offset), x, Pow2(k), offset)
  {
    hide LeastAligned;
    hide RoundDown;
    AlignmentFits(k);
    RoundDownIsMultiple(x + Pow2(k) - 1 + offset, k);
    RoundedIsLeast(RoundUp(x, Pow2(k), offset), x, Pow2(k), offset);
  }

  lemma RoundedIsLeast(r: int, x: nat, p: nat, offset: nat)
    requires p > 0 && r + offset == (x + p - 1 + offset) - (x + p - 1 + offset) % p
    ensures r >= x && LeastAligned(r, x, p, offset)
  {
    var y := x + p - 1 + offset;
    assert y == p * (y / p) + y % p;
    DivModUnique(r + offset, p, y / p, 0);
    NearestIsLeast(r, x, p, offset);
  }
}

/** Bitwise operators on machine words, which are natural numbers below 2^64, and what the mask
    tricks of the allocator and of the object header come to in arithmetic. */
module Bits {

  function Pow2(k: nat): (p: nat)
    ensures p >= 1
  {
    if k == 0 then 1 else 2 * Pow2(k - 1)
  }

  const WORD: nat := 0x1_0000_0000_0000_0000

  function And(x: nat, y: nat): nat
    decreases x
  {
    if x == 0 then 0 else 2 * And(x / 2, y / 2) + (if x % 2 == 1 && y % 2 == 1 then 1 else 0)
  }

  function Or(x: nat, y: nat): nat
    decreases x + y
  {
    if x == 0 then y
    else if y == 0 then x
    else 2 * Or(x / 2, y / 2) + (if x % 2 == 1 || y % 2 == 1 then 1 else 0)
  }

  function Shr(x: nat, k: nat): nat {
    QuotientNonNegative(x, Pow2(k));
    x / Pow2(k)
  }

  function Shl(x: nat, k: nat): nat {
    x * Pow2(k)
  }

  /** The two's complement of `x` in a 64-bit word. */
  function Neg(x: nat): nat
    requires x < WORD
  {
    (WORD - x) % WORD
  }

  function WrappingSub(x: nat, y: nat): nat
    requires x < WORD && y < WORD
  {
    (x + WORD - y) % WORD
  }

  predicate Bit(x: nat, i: nat) {
    (x / Pow2(i)) % 2 == 1
  }

  // ---------------------------------------------------------------- arithmetic

  lemma Pow2Word()
    ensures Pow2(64) == WORD
  {
    hide Pow2;
    Pow2One();
    Pow2Add(1, 1);
    Pow2Add(2, 2);
    Pow2Add(4, 4);
    Pow2Add(8, 8);
    Pow2Add(16, 16);
    Pow2Add(32, 32);
  }

  lemma Pow2One()
    ensures Pow2(1) == 2
  {
  }

  lemma {:induction false} Pow2Add(i: nat, j: nat)
    ensures Pow2(i + j) == Pow2(i) * Pow2(j)
  {
    if i > 0 { Pow2Add(i - 1, j); }
  }

  lemma DivModUnique(a: int, p: int, q: int, r: int)
    requires p > 0 && a == q * p + r && 0 <= r < p
    ensures a / p == q && a % p == r
  {
    var d := a / p - q;
    assert a == p * (a / p) + a % p;
    assert d * p == r - a % p;
    MulGrows(d, p);
  }

  lemma MulGrows(d: int, p: int)
    requires p > 0
    ensures d > 0 ==> d * p >= p
    ensures d < 0 ==> d * p <= -p
  {
  }

  lemma QuotientNonNegative(x: nat, p: nat)
    requires p > 0
    ensures x / p >= 0
  {
    assert x == p * (x / p) + x % p;
    MulGrows(x / p, p);
  }

  lemma QuotientOfSmaller(x: nat, p: nat)
    requires x < p
    ensures x / p == 0
  {
    DivModUnique(x, p, 0, x);
  }

  /** Taking off the last bit first makes no difference. */
  lemma HalfDivMod(x: nat, p: nat, m: nat)
    requires 0 < p && m == 2 * p
    ensures x / m == x / 2 / p && x % m == 2 * (x / 2 % p) + x % 2
  {
    var q, r := x / 2 / p, x / 2 % p;
    assert x / 2 == q * p + r;
    assert x == q * m + (2 * r + x % 2) by {
      assert q * m == 2 * (q * p);
    }
    DivModUnique(x, m, q, 2 * r + x % 2);
  }

  /** Reducing modulo a multiple first makes no difference. */
  lemma ModOfMod(a: int, p: int, q: int)
    requires p > 0 && q > 0
    ensures (a % (p * q)) % p == a % p
  {
    var m := p * q;
    assert m > 0;
    var r := a % m;
    assert a == m * (a / m) + r;
    assert r == p * (r / p) + r % p;
    assert a == (q * (a / m) + r / p) * p + r % p by {
      assert m * (a / m) == (q * (a / m)) * p;
    }
    DivModUnique(a, p, q * (a / m) + r / p, r % p);
  }

  // ---------------------------------------------------------------- masks

  /** `x & (2^k - 1)` keeps the low `k` bits. */
  lemma {:induction false} AndLowMask(x: nat, k: nat)
    ensures And(x, Pow2(k) - 1) == x % Pow2(k)
    decreases k
  {
    if k == 0 {
      AndZero(x);
    } else {
      AndLowMask(x / 2, k - 1);
      LowMaskStep(x, Pow2(k - 1), Pow2(k));
    }
  }

  lemma LowMaskStep(x: nat, p: nat, m: nat)
    requires 0 < p && m == 2 * p && And(x / 2, p - 1) == x / 2 % p
    ensures And(x, m - 1) == x % m
  {
    HalfDivMod(x, p, m);
    AndHalves(x, m - 1, p - 1, 1);
  }

  lemma AndHalves(x: nat, y: nat, half: nat, low: nat)
    requires y == 2 * half + low && low < 2
    ensures And(x, y) == 2 * And(x / 2, half) + (if x % 2 == 1 && low == 1 then 1 else 0)
  {
    assert y / 2 == half && y % 2 == low;
    if x == 0 { assert And(x / 2, half) == 0; }
  }

  lemma {:induction false} AndZero(x: nat)
    ensures And(x, 0) == 0
  {
    if x > 0 { AndZero(x / 2); }
  }

  /** `x & -2^k`, on words, clears the low `k` bits. */
  lemma {:induction false} AndHighMask(x: nat, k: nat, n: nat)
    requires k <= n && x < Pow2(n)
    ensures Pow2(k) <= Pow2(n) && And(x, Pow2(n) - Pow2(k)) == x - x % Pow2(k)
    decreases n
  {
    hide And;
    hide Pow2;
    Pow2Mono(k, n);
    if k == 0 {
      Pow2Zero();
      AndLowMask(x, n);
      SmallMod(x, Pow2(n));
    } else {
      Pow2Double(k);
      Pow2Double(n);
      AndHighMask(x / 2, k - 1, n - 1);
      HighMaskStep(x, Pow2(k - 1), Pow2(k), Pow2(n - 1) - Pow2(k - 1), Pow2(n) - Pow2(k));
    }
  }

  lemma Pow2Zero()
    ensures Pow2(0) == 1
  {
  }

  lemma Pow2Double(k: nat)
    requires k > 0
    ensures Pow2(k) == 2 * Pow2(k - 1)
  {
  }

  lemma HighMaskStep(x: nat, p: nat, m: nat, half: nat, y: nat)
    requires 0 < p && m == 2 * p && y == 2 * half && And(x / 2, half) == x / 2 - x / 2 % p
    ensures And(x, y) == x - x % m
  {
    var a, r := And(x / 2, half), x / 2 % p;
    HalfDivMod(x, p, m);
    AndHalves(x, y, half, 0);
    assert And(x, y) == 2 * a && x == 2 * (x / 2) + x % 2;
  }

  lemma SmallMod(x: nat, p: nat)
    requires x < p
    ensures x % p == x && x % 1 == 0
  {
  }

  lemma {:induction false} Pow2Mono(k: nat, n: nat)
    requires k <= n
    ensures Pow2(k) <= Pow2(n)
  {
    if k < n { Pow2Mono(k, n - 1); }
  }

  /** Words with no bits in common: or is plus. */
  lemma {:induction false} OrParts(hi: nat, lo: nat, k: nat)
    requires lo < Pow2(k)
    ensures Or(hi * Pow2(k), lo) == hi * Pow2(k) + lo
    decreases k
  {
    hide Or;
    if lo == 0 {
      OrZero(hi * Pow2(k));
    } else if hi == 0 {
      OrZero(lo);
      assert 0 * Pow2(k) == 0;
    } else {
      var p := Pow2(k - 1);
      OrParts(hi, lo / 2, k - 1);
      MulGrows(hi, p);
      OrEven(hi * p, lo);
      assert hi * Pow2(k) == 2 * (hi * p);
    }
  }

  lemma OrZero(x: nat)
    ensures Or(x, 0) == x && Or(0, x) == x
  {
  }

  lemma OrEven(a: nat, y: nat)
    requires a > 0 && y > 0
    ensures Or(2 * a, y) == 2 * Or(a, y / 2) + y % 2
  {
    assert 2 * a / 2 == a && 2 * a % 2 == 0;
  }

  // ---------------------------------------------------------------- single bits

  /** `x | 1 << i` sets bit `i` and leaves every other bit alone. */
  lemma {:induction false} OrSetsBit(x: nat, i: nat, j: nat)
    ensures Bit(Or(x, Pow2(i)), j) == (j == i || Bit(x, j))
    decreases i + j
  {
    if x == 0 {
      BitOfPow2(i, j);
      BitBeyond(0, j);
    } else if i == 0 {
      OrOne(x, j);
    } else {
      var r := Or(x, Pow2(i));
      assert Pow2(i) / 2 == Pow2(i - 1) && Pow2(i) % 2 == 0;
      assert r == 2 * Or(x / 2, Pow2(i - 1)) + x % 2;
      if j > 0 {
        OrSetsBit(x / 2, i - 1, j - 1);
        BitHalf(r, j);
        BitHalf(x, j);
        assert r / 2 == Or(x / 2, Pow2(i - 1));
      }
    }
  }

  lemma OrOne(x: nat, j: nat)
    requires x > 0
    ensures Bit(Or(x, 1), j) == (j == 0 || Bit(x, j))
  {
    var r := Or(x, 1);
    assert r == 2 * Or(x / 2, 0) + 1;
    assert Or(x / 2, 0) == x / 2;
    if j > 0 {
      BitHalf(r, j);
      BitHalf(x, j);
    }
  }

  lemma BitHalf(x: nat, j: nat)
    requires j > 0
    ensures Bit(x, j) == Bit(x / 2, j - 1)
  {
    HalfDivMod(x, Pow2(j - 1), Pow2(j));
  }

  lemma LowestBit(x: nat)
    ensures Bit(x, 0) <==> x % 2 == 1
  {
    assert Pow2(0) == 1;
  }

  lemma BitBeyond(x: nat, j: nat)
    requires x < Pow2(j)
    ensures !Bit(x, j)
  {
    QuotientOfSmaller(x, Pow2(j));
  }

  lemma {:induction false} BitOfPow2(i: nat, j: nat)
    ensures Bit(Pow2(i), j) == (i == j)
    decreases i + j
  {
    hide Bit;
    if j == 0 {
      LowestBit(Pow2(i));
    } else if i == 0 {
      Pow2Mono(1, j);
      BitBeyond(1, j);
    } else {
      BitOfPow2(i - 1, j - 1);
      BitHalf(Pow2(i), j);
    }
  }

  /** A byte stays a byte. */
  lemma {:induction false} OrBound(x: nat, y: nat, n: nat)
    requires x < Pow2(n) && y < Pow2(n)
    ensures Or(x, y) < Pow2(n)
    decreases n
  {
    if n > 0 && x > 0 && y > 0 { OrBound(x / 2, y / 2, n - 1); }
  }

  /** Reading bit `i` by shifting and masking. */
  lemma ShiftedBit(x: nat, i: nat)
    ensures And(Shr(x, i), 1) == (if Bit(x, i) then 1 else 0)
  {
    AndLowMask(Shr(x, i), 1);
  }
}

/** 32-bit words as natural numbers, with the C operators on them defined bit by
    bit; the macros of include/bitops.h; and what they compute. */
module Bits {

  const WORD: nat := 0x1_0000_0000

  type Word = x: nat | x < WORD

  // char, the BYTE of include/os-mm.h
  newtype Byte = b: int | -128 <= b < 128

  function Pow2(n: nat): nat { if n == 0 then 1 else 2 * Pow2(n - 1) }

  // Bit k of x.
  function Bit(x: nat, k: nat): bool {
    if k == 0 then x % 2 == 1 else Bit(x / 2, k - 1)
  }

  function And(a: nat, b: nat): nat {
    if a == 0 || b == 0 then 0 else (a % 2) * (b % 2) + 2 * And(a / 2, b / 2)
  }

  function Or(a: nat, b: nat): nat
    decreases a + b
  {
    if a == 0 then b
    else if b == 0 then a
    else (if a % 2 == 1 || b % 2 == 1 then 1 else 0) + 2 * Or(a / 2, b / 2)
  }

  function Not(a: Word): Word { WORD - 1 - a }

  // x << n and x >> n on unsigned 32-bit words, one place at a time.
  function Shl(x: Word, n: nat): Word
    decreases n
  {
    if n == 0 then x else Shl((2 * x) % WORD, n - 1)
  }

  function Shr(x: nat, n: nat): nat {
    if n == 0 then x else Shr(x / 2, n - 1)
  }

  /* ---------- Bitwise meaning ---------- */

  lemma {:induction false} BitOfZero(k: nat)
    ensures !Bit(0, k)
  {
    if k > 0 { BitOfZero(k - 1); }
  }

  lemma {:induction false} BitAnd(a: nat, b: nat, k: nat)
    ensures Bit(And(a, b), k) <==> Bit(a, k) && Bit(b, k)
  {
    BitOfZero(k);
    if a != 0 && b != 0 && k > 0 {
      assert And(a, b) / 2 == And(a / 2, b / 2);
      BitAnd(a / 2, b / 2, k - 1);
    }
  }

  lemma {:induction false} BitOr(a: nat, b: nat, k: nat)
    ensures Bit(Or(a, b), k) <==> Bit(a, k) || Bit(b, k)
  {
    BitOfZero(k);
    if a != 0 && b != 0 && k > 0 {
      assert Or(a, b) / 2 == Or(a / 2, b / 2);
      BitOr(a / 2, b / 2, k - 1);
    }
  }

  lemma {:induction false} BitShr(x: nat, n: nat, k: nat)
    ensures Bit(Shr(x, n), k) <==> Bit(x, k + n)
  {
    if n > 0 { BitShr(x / 2, n - 1, k); }
  }

  lemma {:induction false} Pow2Positive(n: nat)
    ensures Pow2(n) > 0
  {
    if n > 0 { Pow2Positive(n - 1); }
  }

  // Numbers below 2^n have no bits from n on, and agree if their bits below n do.
  lemma {:induction false} BitsBounded(x: nat, n: nat, k: nat)
    requires x < Pow2(n) && n <= k
    ensures !Bit(x, k)
  {
    if n == 0 { BitOfZero(k); } else { BitsBounded(x / 2, n - 1, k - 1); }
  }

  lemma {:induction false} SameBits(x: nat, y: nat, n: nat)
    requires x < Pow2(n) && y < Pow2(n)
    requires forall k :: 0 <= k < n ==> (Bit(x, k) <==> Bit(y, k))
    ensures x == y
  {
    if n > 0 {
      forall k | 0 <= k < n - 1 ensures Bit(x / 2, k) <==> Bit(y / 2, k) {
        assert Bit(x, k + 1) <==> Bit(y, k + 1);
      }
      SameBits(x / 2, y / 2, n - 1);
      assert Bit(x, 0) <==> Bit(y, 0);
    }
  }

  lemma Pow2Of32()
    ensures Pow2(32) == WORD
  {
    assert Pow2(8) == 256;
    assert Pow2(16) == 65536;
    assert Pow2(24) == 0x1000000;
  }

  lemma {:induction false} BitComplement(x: nat, n: nat, k: nat)
    requires x < Pow2(n) && k < n
    ensures Bit(Pow2(n) - 1 - x, k) <==> !Bit(x, k)
  {
    if k == 0 {
    } else {
      assert (Pow2(n) - 1 - x) / 2 == Pow2(n - 1) - 1 - x / 2;
      BitComplement(x / 2, n - 1, k - 1);
    }
  }

  lemma BitNot(x: Word, k: nat)
    ensures Bit(Not(x), k) <==> k < 32 && !Bit(x, k)
  {
    Pow2Of32();
    if k < 32 { BitComplement(x, 32, k); } else { BitsBounded(Not(x), 32, k); }
  }

  // Reducing modulo 2^n cuts off the bits from n on.
  lemma {:induction false} BitMod(x: nat, n: nat, k: nat)
    ensures Pow2(n) > 0 && (Bit(x % Pow2(n), k) <==> k < n && Bit(x, k))
  {
    Pow2Positive(n);
    if n == 0 {
      BitOfZero(k);
    } else {
      Pow2Positive(n - 1);
      ModHalves(x, Pow2(n - 1), Pow2(n));
      if k > 0 { BitMod(x / 2, n - 1, k - 1); }
    }
  }

  lemma DoubleUp(x: nat, m: nat, d: nat, q: nat, r: nat)
    requires d == 2 * m && x / 2 == m * q + r && r < m
    ensures x == d * q + (2 * r + x % 2) && 2 * r + x % 2 < d
  {
    MulAssoc(m, q);
  }

  lemma ModHalves(x: nat, m: nat, d: nat)
    requires m > 0 && d == 2 * m
    ensures (x % d) / 2 == (x / 2) % m && (x % d) % 2 == x % 2
  {
    var q, r := (x / 2) / m, (x / 2) % m;
    DoubleUp(x, m, d, q, r);
    DivModUnique(x, d, q, 2 * r + x % 2);
  }

  lemma MulMonotone(c: nat, a: nat, b: nat)
    requires a <= b
    ensures c * a <= c * b
  {
  }

  lemma DivModUnique(x: nat, m: nat, q: nat, r: nat)
    requires m > 0 && x == m * q + r && r < m
    ensures x / m == q && x % m == r
  {
    var p := x / m;
    assert x == m * p + x % m;
    assert m * (p + 1) == m * p + m && m * (q + 1) == m * q + m;
    if p < q { MulMonotone(m, p + 1, q); }
    if q < p { MulMonotone(m, q + 1, p); }
  }

  lemma BitDouble(x: nat, k: nat)
    ensures Bit(2 * x, k) <==> k > 0 && Bit(x, k - 1)
  {
  }

  lemma {:induction false} BitShl(x: Word, n: nat, k: nat)
    ensures Bit(Shl(x, n), k) <==> n <= k < 32 && Bit(x, k - n)
    decreases n
  {
    Pow2Of32();
    if n == 0 {
      if k >= 32 { BitsBounded(x, 32, k); }
    } else {
      BitShl((2 * x) % WORD, n - 1, k);
      if n - 1 <= k < 32 {
        BitMod(2 * x, 32, k - (n - 1));
        BitDouble(x, k - (n - 1));
      }
    }
  }

  // Two words are equal if all 32 bits are.
  lemma WordsEqual(x: Word, y: Word)
    requires forall k :: 0 <= k < 32 ==> (Bit(x, k) <==> Bit(y, k))
    ensures x == y
  {
    Pow2Of32();
    SameBits(x, y, 32);
  }

  /* ---------- Shifts and masks as arithmetic ---------- */

  lemma DivDiv(x: nat, m: nat, d: nat)
    requires m > 0 && d == 2 * m
    ensures (x / 2) / m == x / d
  {
    var q, r := (x / 2) / m, (x / 2) % m;
    DoubleUp(x, m, d, q, r);
    DivModUnique(x, d, q, 2 * r + x % 2);
  }

  lemma {:induction false} ShrIsDiv(x: nat, n: nat)
    ensures Pow2(n) > 0 && Shr(x, n) == x / Pow2(n)
  {
    Pow2Positive(n);
    if n > 0 {
      ShrIsDiv(x / 2, n - 1);
      DivDiv(x, Pow2(n - 1), Pow2(n));
    }
  }

  lemma ShlStep(x: nat, n: nat)
    requires n > 0 && 2 * x < WORD
    ensures Shl(x, n) == Shl(2 * x, n - 1)
  {
  }

  lemma {:induction false} ShlIsMul(x: nat, n: nat, w: nat)
    requires n <= w && x < Pow2(w - n) && Pow2(w) == WORD
    ensures x < WORD && Shl(x, n) == Pow2(n) * x
    decreases n
  {
    Pow2Monotone(w - n, w);
    if n > 0 {
      Pow2Monotone(w - (n - 1), w);
      ShlStep(x, n);
      ShlIsMul(2 * x, n - 1, w);
      MulAssoc(Pow2(n - 1), x);
    }
  }

  lemma MulAssoc(c: nat, x: nat)
    ensures (2 * c) * x == c * (2 * x) == 2 * (c * x)
  {
  }

  lemma {:induction false} Pow2Monotone(m: nat, n: nat)
    requires m <= n
    ensures 0 < Pow2(m) <= Pow2(n)
    decreases n - m
  {
    Pow2Positive(m);
    if m < n { Pow2Monotone(m, n - 1); }
  }

  lemma {:induction false} Pow2Sum(m: nat, n: nat)
    ensures Pow2(m + n) == Pow2(m) * Pow2(n)
  {
    if m > 0 { Pow2Sum(m - 1, n); }
  }

  // A number made of an upper part and a part below 2^n.
  lemma {:induction false} OrIsSum(hi: nat, lo: nat, n: nat)
    requires lo < Pow2(n)
    ensures Or(Pow2(n) * hi, lo) == Pow2(n) * hi + lo
    decreases n
  {
    if n == 0 {
    } else {
      var h := Pow2(n - 1) * hi;
      assert Pow2(n) * hi == 2 * h;
      OrIsSum(hi, lo / 2, n - 1);
    }
  }

  /* ---------- include/bitops.h ---------- */

  const ALL: Word := WORD - 1  // ~0U

  function DivRoundUp(n: nat, d: nat): nat
    requires d > 0
  {
    (n + d - 1) / d
  }

  lemma DivRoundUpIsCeiling(n: nat, d: nat)
    requires d > 0
    ensures d * DivRoundUp(n, d) >= n
    ensures forall k: nat :: d * k >= n ==> k >= DivRoundUp(n, d)
  {
    var r := DivRoundUp(n, d);
    assert n + d - 1 == d * r + (n + d - 1) % d;
    forall k: nat | d * k >= n ensures k >= r {
      assert d * (k + 1) == d * k + d;
      if k < r { MulMonotone(d, k + 1, r); }
    }
  }

  // The macro on unsigned 32-bit operands.
  function DivRoundUpWord(n: Word, d: Word): Word
    requires d > 0
  {
    QuotientSmaller((n + d - 1) % WORD, d);
    ((n + d - 1) % WORD) / d
  }

  lemma QuotientSmaller(n: nat, d: nat)
    requires 0 < d
    ensures n / d <= n
  {
    var q := n / d;
    assert n == d * q + n % d;
    MulMonotone(q, 1, d);
  }

  // It covers n if and only if the sum in it does not wrap around; then it is the
  // least number that does.
  lemma DivRoundUpWordIsCeiling(n: Word, d: Word)
    requires d > 0
    ensures d * DivRoundUpWord(n, d) >= n <==> n + d - 1 < WORD
    ensures n + d - 1 < WORD ==> DivRoundUpWord(n, d) == DivRoundUp(n, d)
  {
    if n + d - 1 < WORD {
      DivRoundUpIsCeiling(n, d);
    } else {
      DivModUnique(n + d - 1 - WORD, d, 0, n + d - 1 - WORD);
    }
  }

  function GenMask(h: nat, l: nat): nat
    requires h < 32
  {
    And(Shl(ALL, l), Shr(ALL, 32 - h - 1))
  }

  lemma {:induction false} BitOnes(n: nat, k: nat)
    ensures Pow2(n) > 0 && (Bit(Pow2(n) - 1, k) <==> k < n)
  {
    Pow2Positive(n);
    if n == 0 {
      BitOfZero(k);
    } else if k > 0 {
      BitOnes(n - 1, k - 1);
    }
  }

  lemma {:induction false} AndBounded(a: nat, b: nat)
    ensures And(a, b) <= a && And(a, b) <= b
  {
    if a != 0 && b != 0 { AndBounded(a / 2, b / 2); }
  }

  // GENMASK(h, l) has exactly the bits l to h.
  lemma BitGenMask(h: nat, l: nat, k: nat)
    requires h < 32
    ensures GenMask(h, l) < WORD
    ensures Bit(GenMask(h, l), k) <==> l <= k <= h
  {
    Pow2Of32();
    AndBounded(Shl(ALL, l), Shr(ALL, 31 - h));
    BitAnd(Shl(ALL, l), Shr(ALL, 31 - h), k);
    BitShl(ALL, l, k);
    BitShr(ALL, 31 - h, k);
    BitOnes(32, k + (31 - h));
    if l <= k { BitOnes(32, k - l); }
  }

  function NBits2(n: nat): nat { if And(n, 2) != 0 then 1 else 0 }

  function NBits4(n: nat): nat { if And(n, 0xC) != 0 then 2 + NBits2(Shr(n, 2)) else NBits2(n) }

  function NBits8(n: nat): nat { if And(n, 0xF0) != 0 then 4 + NBits4(Shr(n, 4)) else NBits4(n) }

  function NBits16(n: nat): nat { if And(n, 0xFF00) != 0 then 8 + NBits8(Shr(n, 8)) else NBits8(n) }

  function NBits32(n: nat): nat { if And(n, 0xFFFF0000) != 0 then 16 + NBits16(Shr(n, 16)) else NBits16(n) }

  function NBits(n: nat): nat { if n == 0 then 0 else NBits32(n) }

  // The mask 2^w - 2^m finds out whether a number below 2^w reaches 2^m.
  lemma {:induction false} MaskFindsHigh(n: nat, m: nat, w: nat)
    requires m <= w && n < Pow2(w)
    ensures Pow2(m) <= Pow2(w) && (And(n, Pow2(w) - Pow2(m)) == 0 <==> n < Pow2(m))
    decreases w
  {
    Pow2Monotone(m, w);
    if m == 0 {
      AndOnes(n, w);
    } else {
      MaskFindsHigh(n / 2, m - 1, w - 1);
      assert (Pow2(w) - Pow2(m)) / 2 == Pow2(w - 1) - Pow2(m - 1);
    }
  }

  lemma {:induction false} AndOnes(n: nat, w: nat)
    requires n < Pow2(w)
    ensures Pow2(w) > 0 && And(n, Pow2(w) - 1) == n
  {
    Pow2Positive(w);
    if w > 0 && n > 0 {
      AndOnes(n / 2, w - 1);
      assert (Pow2(w) - 1) / 2 == Pow2(w - 1) - 1;
    }
  }

  ghost predicate IsLog2(n: nat, b: nat) { Pow2(b) <= n < Pow2(b + 1) }

  // One halving step of the macro.
  lemma {:induction false} Log2Step(n: nat, m: nat, b: nat)
    requires n >= Pow2(m) && IsLog2(Shr(n, m), b)
    ensures IsLog2(n, m + b)
  {
    if m > 0 { Log2Step(n / 2, m - 1, b); }
  }

  lemma {:induction false} ShrSmaller(n: nat, m: nat, w: nat)
    requires m <= w && Pow2(m) <= n < Pow2(w)
    ensures 1 <= Shr(n, m) < Pow2(w - m)
  {
    if m > 0 { ShrSmaller(n / 2, m - 1, w - 1); }
  }

  lemma SmallPowers()
    ensures Pow2(1) == 2 && Pow2(2) == 4 && Pow2(4) == 16 && Pow2(8) == 256 && Pow2(16) == 65536 && Pow2(32) == WORD
  {
    Pow2Of32();
    assert Pow2(8) == 256;
  }

  lemma NBits2IsLog2(n: nat)
    requires 1 <= n < 4
    ensures IsLog2(n, NBits2(n))
  {
    SmallPowers();
    MaskFindsHigh(n, 1, 2);
  }

  lemma NBits4IsLog2(n: nat)
    requires 1 <= n < 16
    ensures IsLog2(n, NBits4(n))
  {
    SmallPowers();
    MaskFindsHigh(n, 2, 4);
    if n >= 4 {
      ShrSmaller(n, 2, 4);
      NBits2IsLog2(Shr(n, 2));
      Log2Step(n, 2, NBits2(Shr(n, 2)));
    } else {
      NBits2IsLog2(n);
    }
  }

  lemma NBits8IsLog2(n: nat)
    requires 1 <= n < 256
    ensures IsLog2(n, NBits8(n))
  {
    SmallPowers();
    MaskFindsHigh(n, 4, 8);
    if n >= 16 {
      ShrSmaller(n, 4, 8);
      NBits4IsLog2(Shr(n, 4));
      Log2Step(n, 4, NBits4(Shr(n, 4)));
    } else {
      NBits4IsLog2(n);
    }
  }

  lemma NBits16IsLog2(n: nat)
    requires 1 <= n < 65536
    ensures IsLog2(n, NBits16(n))
  {
    SmallPowers();
    MaskFindsHigh(n, 8, 16);
    if n >= 256 {
      ShrSmaller(n, 8, 16);
      NBits8IsLog2(Shr(n, 8));
      Log2Step(n, 8, NBits8(Shr(n, 8)));
    } else {
      NBits8IsLog2(n);
    }
  }

  // NBITS is the binary logarithm, rounded down, of every positive word.
  lemma NBitsIsLog2(n: Word)
    requires n > 0
    ensures Pow2(NBits(n)) <= n < Pow2(NBits(n) + 1)
  {
    SmallPowers();
    MaskFindsHigh(n, 16, 32);
    if n >= 65536 { HighHalfIsLog2(n); } else { NBits16IsLog2(n); }
  }

  lemma HighHalfIsLog2(n: Word)
    requires n >= 65536
    ensures IsLog2(n, 16 + NBits16(Shr(n, 16)))
  {
    SmallPowers();
    ShrSmaller(n, 16, 32);
    NBits16IsLog2(Shr(n, 16));
    Log2Step(n, 16, NBits16(Shr(n, 16)));
  }

  lemma Log2OfPow2(b: nat, k: nat)
    requires IsLog2(Pow2(k), b)
    ensures b == k
  {
    if b < k { Pow2Monotone(b + 1, k); }
    if b > k { Pow2Monotone(k + 1, b); }
  }

  lemma NBitsOfPow2(k: nat)
    requires k < 32
    ensures 0 < Pow2(k) < WORD && NBits(Pow2(k)) == k
  {
    Pow2Of32();
    Pow2Monotone(k, 31);
    NBitsIsLog2(Pow2(k));
    Log2OfPow2(NBits(Pow2(k)), k);
  }
}

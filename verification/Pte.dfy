/** Address fields and page-table entries of include/mm.h and src/mm.c. */
module Pte {
  import opened Bits

  /* ---------- SETVAL, GETVAL and friends on fields of a word ---------- */

  lemma {:induction false} OrBounded(a: nat, b: nat, n: nat)
    requires a < Pow2(n) && b < Pow2(n)
    ensures Or(a, b) < Pow2(n)
    decreases n
  {
    if n > 0 && a > 0 && b > 0 { OrBounded(a / 2, b / 2, n - 1); }
  }

  function OrW(a: Word, b: Word): Word {
    Pow2Of32();
    OrBounded(a, b, 32);
    Or(a, b)
  }

  function AndW(a: Word, b: Word): Word {
    AndBounded(a, b);
    And(a, b)
  }

  function Mask(h: nat, l: nat): Word
    requires h < 32
  {
    BitGenMask(h, l, 0);
    GenMask(h, l)
  }

  function BitAt(nr: nat): Word { Shl(1, nr) }

  function SetBit(v: Word, mask: Word): Word { OrW(v, mask) }

  function ClrBit(v: Word, mask: Word): Word { AndW(v, Not(mask)) }

  function SetVal(v: Word, value: Word, mask: Word, offst: nat): Word {
    OrW(AndW(v, Not(mask)), AndW(Shl(value, offst), mask))
  }

  function GetVal(v: Word, mask: Word, offst: nat): nat { Shr(And(v, mask), offst) }

  // The field of bits l to h of v.
  function Field(v: Word, h: nat, l: nat): nat
    requires h < 32
  {
    GetVal(v, Mask(h, l), l)
  }

  lemma BitField(v: Word, h: nat, l: nat, k: nat)
    requires l <= h < 32
    ensures Bit(Field(v, h, l), k) <==> k <= h - l && Bit(v, k + l)
  {
    BitShr(And(v, Mask(h, l)), l, k);
    BitAnd(v, Mask(h, l), k + l);
    BitGenMask(h, l, k + l);
  }

  lemma BitSetVal(v: Word, value: Word, h: nat, l: nat, k: nat)
    requires l <= h < 32
    ensures Bit(SetVal(v, value, Mask(h, l), l), k) <==> if l <= k <= h then Bit(value, k - l) else Bit(v, k)
  {
    BitOr(AndW(v, Not(Mask(h, l))), AndW(Shl(value, l), Mask(h, l)), k);
    BitAnd(v, Not(Mask(h, l)), k);
    BitAnd(Shl(value, l), Mask(h, l), k);
    BitNot(Mask(h, l), k);
    BitGenMask(h, l, k);
    BitShl(value, l, k);
    if k >= 32 {
      Pow2Of32();
      BitsBounded(v, 32, k);
    }
  }

  lemma FieldBounded(v: Word, h: nat, l: nat)
    requires l <= h < 32
    ensures 0 < Pow2(l) && 0 < Pow2(h - l + 1) && Field(v, h, l) < WORD
    ensures Field(v, h, l) == (v / Pow2(l)) % Pow2(h - l + 1)
  {
    var w := h - l + 1;
    ShrIsDiv(v, l);
    Pow2Monotone(w, 32);
    Pow2Of32();
    var arith := Shr(v, l) % Pow2(w);
    ShrBounded(And(v, Mask(h, l)), l);
    AndBounded(v, Mask(h, l));
    forall k | 0 <= k < 32 ensures Bit(Field(v, h, l), k) <==> Bit(arith, k) {
      BitField(v, h, l, k);
      BitMod(Shr(v, l), w, k);
      BitShr(v, l, k);
    }
    WordsEqual(Field(v, h, l), arith);
  }

  lemma {:induction false} ShrBounded(x: nat, n: nat)
    ensures Shr(x, n) <= x
  {
    if n > 0 { ShrBounded(x / 2, n - 1); }
  }

  // Reading back a field that was set gives the value, cut to the field's width.
  lemma SetThenGet(v: Word, value: Word, h: nat, l: nat)
    requires l <= h < 32
    ensures 0 < Pow2(h - l + 1)
    ensures Field(SetVal(v, value, Mask(h, l), l), h, l) == value % Pow2(h - l + 1)
  {
    var w := h - l + 1;
    Pow2Monotone(w, 32);
    var cut := value % Pow2(w);
    var r := SetVal(v, value, Mask(h, l), l);
    FieldBounded(r, h, l);
    forall k | 0 <= k < 32 ensures Bit(Field(r, h, l), k) <==> Bit(cut, k) {
      BitField(r, h, l, k);
      BitSetVal(v, value, h, l, k + l);
      BitMod(value, w, k);
    }
    ModBounded(value, Pow2(w));
    WordsEqual(Field(r, h, l), cut);
  }

  lemma ModBounded(x: nat, m: nat)
    requires m > 0
    ensures x % m <= x && (x % m == x <==> x < m)
  {
  }

  // Setting a field leaves every disjoint field alone.
  lemma SetKeepsOther(v: Word, value: Word, h: nat, l: nat, h': nat, l': nat)
    requires l <= h < 32 && l' <= h' < 32 && (h < l' || h' < l)
    ensures Field(SetVal(v, value, Mask(h, l), l), h', l') == Field(v, h', l')
  {
    var r := SetVal(v, value, Mask(h, l), l);
    FieldBounded(r, h', l');
    FieldBounded(v, h', l');
    forall k | 0 <= k < 32 ensures Bit(Field(r, h', l'), k) <==> Bit(Field(v, h', l'), k) {
      BitField(r, h', l', k);
      BitField(v, h', l', k);
      BitSetVal(v, value, h, l, k + l');
    }
    WordsEqual(Field(r, h', l'), Field(v, h', l'));
  }

  lemma BitBitAt(nr: nat, k: nat)
    requires nr < 32
    ensures Bit(BitAt(nr), k) <==> k == nr
  {
    BitShl(1, nr, k);
    if k > nr { BitOfZero(k - nr - 1); }
  }

  lemma BitSetBit(v: Word, nr: nat, k: nat)
    requires nr < 32
    ensures Bit(SetBit(v, BitAt(nr)), k) <==> k == nr || Bit(v, k)
  {
    BitOr(v, BitAt(nr), k);
    BitBitAt(nr, k);
  }

  lemma BitClrBit(v: Word, nr: nat, k: nat)
    requires nr < 32
    ensures Bit(ClrBit(v, BitAt(nr)), k) <==> k != nr && Bit(v, k)
  {
    BitAnd(v, Not(BitAt(nr)), k);
    BitNot(BitAt(nr), k);
    BitBitAt(nr, k);
    if k >= 32 {
      Pow2Of32();
      BitsBounded(v, 32, k);
    }
  }

  // Testing a mask of one bit, as PAGING_PAGE_PRESENT does.
  lemma TestBit(v: Word, nr: nat)
    requires nr < 32
    ensures And(v, BitAt(nr)) != 0 <==> Bit(v, nr)
  {
    BitAnd(v, BitAt(nr), nr);
    BitBitAt(nr, nr);
    if !Bit(v, nr) {
      forall k | 0 <= k < 32 ensures Bit(AndW(v, BitAt(nr)), k) <==> Bit(0, k) {
        BitAnd(v, BitAt(nr), k);
        BitBitAt(nr, k);
        BitOfZero(k);
      }
      WordsEqual(AndW(v, BitAt(nr)), 0);
    } else {
      BitOfZero(nr);
    }
  }

  /* ---------- Addresses ---------- */

  const PAGING_PAGESZ: nat := 256
  const PAGING_CPU_BUS_WIDTH: nat := 22
  const PAGING_MAX_PGN: nat := 16384       // pages in the 4 MB space
  const PAGING_SPACE: nat := 0x400000

  // PAGING_OFFST and PAGING_PGN, with their masks as the header builds them.
  function OffstOf(a: Word, pagesz: Word): nat {
    GetVal(a, Mask(if 1 <= NBits(pagesz) <= 32 then NBits(pagesz) - 1 else 0, 0), 0)
  }

  function PgnOf(a: Word, pagesz: Word, width: nat): nat
    requires 1 <= width <= 32
  {
    GetVal(a, Mask(width - 1, NBits(pagesz)), NBits(pagesz))
  }

  function Offst(a: Word): nat { OffstOf(a, PAGING_PAGESZ) }

  function Pgn(a: Word): nat { PgnOf(a, PAGING_PAGESZ, PAGING_CPU_BUS_WIDTH) }

  lemma PageSizeBits()
    ensures NBits(PAGING_PAGESZ) == 8 && Pow2(8) == 256 && Pow2(14) == 16384
  {
    SmallPowers();
    NBitsOfPow2(8);
    Pow2Sum(8, 6);
    assert Pow2(6) == 64;
  }

  // For a page size of 2^n, the offset is the remainder ...
  lemma OffstOfIsRemainder(a: Word, pagesz: Word, n: nat)
    requires NBits(pagesz) == n && 1 <= n < 32 && Pow2(n) == pagesz
    ensures 0 < pagesz && OffstOf(a, pagesz) == a % pagesz
  {
    assert Pow2(0) == 1;
    FieldBounded(a, n - 1, 0);
  }

  // ... and the page number the quotient, cut to the width of the bus.
  lemma PgnOfIsQuotient(a: Word, pagesz: Word, width: nat, n: nat)
    requires NBits(pagesz) == n < width <= 32 && Pow2(n) == pagesz
    ensures 0 < pagesz && 0 < Pow2(width - n)
    ensures PgnOf(a, pagesz, width) == (a / pagesz) % Pow2(width - n)
  {
    FieldBounded(a, width - 1, n);
  }

  lemma OffstIsRemainder(a: Word)
    ensures Offst(a) == a % PAGING_PAGESZ
  {
    PageSizeBits();
    OffstOfIsRemainder(a, PAGING_PAGESZ, 8);
  }

  lemma PgnIsQuotient(a: Word)
    ensures Pgn(a) == (a / PAGING_PAGESZ) % PAGING_MAX_PGN
  {
    PageSizeBits();
    PgnOfIsQuotient(a, PAGING_PAGESZ, PAGING_CPU_BUS_WIDTH, 8);
  }

  // Splitting an address and putting it together again is the identity on the bus width.
  lemma SplitRecombines(a: Word)
    ensures Pgn(a) * PAGING_PAGESZ + Offst(a) == a % PAGING_SPACE
    ensures Pgn(a) < PAGING_MAX_PGN && Offst(a) < PAGING_PAGESZ
  {
    OffstIsRemainder(a);
    PgnIsQuotient(a);
    QuotientAndRemainder(a);
  }

  lemma QuotientAndRemainder(a: nat)
    ensures ((a / PAGING_PAGESZ) % PAGING_MAX_PGN) * PAGING_PAGESZ + a % PAGING_PAGESZ == a % PAGING_SPACE
  {
  }

  /* ---------- Page-table entries ---------- */

  function Present(pte: Word): bool { And(pte, BitAt(31)) != 0 }

  function Swapped(pte: Word): bool { And(pte, BitAt(30)) != 0 }

  // PAGING_FPN, PAGING_SWP and the swap type.
  function Fpn(pte: Word): nat { Field(pte, 12, 0) }

  function Swp(pte: Word): nat { Shr(And(pte, Mask(25, 5)), 5) }

  function SwpTyp(pte: Word): nat { Field(pte, 4, 0) }

  // pte_set_fpn
  function PteSetFpn(pte: Word, fpn: Word): Word {
    SetVal(ClrBit(SetBit(pte, BitAt(31)), BitAt(30)), fpn, Mask(12, 0), 0)
  }

  // pte_set_swap
  function PteSetSwap(pte: Word, swptyp: Word, swpoff: Word): Word {
    SetVal(SetVal(SetBit(SetBit(pte, BitAt(31)), BitAt(30)), swptyp, Mask(4, 0), 0), swpoff, Mask(25, 5), 5)
  }

  lemma BitPteSetFpn(pte: Word, fpn: Word, k: nat)
    ensures Bit(PteSetFpn(pte, fpn), k) <==>
      if k <= 12 then Bit(fpn, k) else k == 31 || (k != 30 && Bit(pte, k))
  {
    BitSetVal(ClrBit(SetBit(pte, BitAt(31)), BitAt(30)), fpn, 12, 0, k);
    BitClrBit(SetBit(pte, BitAt(31)), 30, k);
    BitSetBit(pte, 31, k);
  }

  lemma FpnWidth()
    ensures Pow2(13) == 8192
  {
    SmallPowers();
    Pow2Sum(8, 5);
    assert Pow2(5) == 32;
  }

  // An entry set to a frame is present, not swapped, keeps the bits outside the
  // frame number, and gives the frame number back cut to 13 bits.
  lemma PteSetFpnMeaning(pte: Word, fpn: Word)
    ensures Present(PteSetFpn(pte, fpn)) && !Swapped(PteSetFpn(pte, fpn))
    ensures Fpn(PteSetFpn(pte, fpn)) == fpn % 8192
    ensures Field(PteSetFpn(pte, fpn), 29, 13) == Field(pte, 29, 13)
  {
    var p := PteSetFpn(pte, fpn);
    TestBit(p, 31);
    TestBit(p, 30);
    BitPteSetFpn(pte, fpn, 31);
    BitPteSetFpn(pte, fpn, 30);
    FpnWidth();
    SetThenGet(ClrBit(SetBit(pte, BitAt(31)), BitAt(30)), fpn, 12, 0);
    FieldBounded(p, 29, 13);
    FieldBounded(pte, 29, 13);
    forall k | 0 <= k < 32 ensures Bit(Field(p, 29, 13), k) <==> Bit(Field(pte, 29, 13), k) {
      BitField(p, 29, 13, k);
      BitField(pte, 29, 13, k);
      BitPteSetFpn(pte, fpn, k + 13);
    }
    WordsEqual(Field(p, 29, 13), Field(pte, 29, 13));
  }

  // So the frame number survives exactly if it fits in 13 bits, that is, if the
  // frame lies in the first 2^21 bytes of RAM.
  lemma FrameNumberRoundTrip(pte: Word, fpn: Word)
    ensures Fpn(PteSetFpn(pte, fpn)) == fpn <==> fpn < 8192
  {
    PteSetFpnMeaning(pte, fpn);
    ModBounded(fpn, 8192);
  }

  // The first frame beyond that aliases frame 0.
  lemma FrameNumberAlias(pte: Word)
    ensures Fpn(PteSetFpn(pte, 8192)) == Fpn(PteSetFpn(pte, 0)) == 0
  {
    PteSetFpnMeaning(pte, 8192);
    PteSetFpnMeaning(pte, 0);
  }

  lemma SwapWidths()
    ensures Pow2(5) == 32 && Pow2(21) == 0x200000
  {
    SmallPowers();
    assert Pow2(5) == 32;
    Pow2Sum(16, 5);
  }

  lemma PteSetSwapMeaning(pte: Word, swptyp: Word, swpoff: Word)
    ensures Present(PteSetSwap(pte, swptyp, swpoff)) && Swapped(PteSetSwap(pte, swptyp, swpoff))
    ensures Swp(PteSetSwap(pte, swptyp, swpoff)) == swpoff % 0x200000
    ensures SwpTyp(PteSetSwap(pte, swptyp, swpoff)) == swptyp % 32
  {
    var base := SetBit(SetBit(pte, BitAt(31)), BitAt(30));
    var mid := SetVal(base, swptyp, Mask(4, 0), 0);
    var p := PteSetSwap(pte, swptyp, swpoff);
    SwapWidths();
    SetThenGet(mid, swpoff, 25, 5);
    SetThenGet(base, swptyp, 4, 0);
    SetKeepsOther(mid, swpoff, 25, 5, 4, 0);
    TestBit(p, 31);
    TestBit(p, 30);
    forall k | 30 <= k <= 31 ensures Bit(p, k) {
      BitSetVal(mid, swpoff, 25, 5, k);
      BitSetVal(base, swptyp, 4, 0, k);
      BitSetBit(SetBit(pte, BitAt(31)), 30, k);
      BitSetBit(pte, 31, k);
    }
  }
}

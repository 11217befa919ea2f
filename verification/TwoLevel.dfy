/** The two-level page table of src/mem.c as a value, and the flat list of frames
    it represents. */
module TwoLevel {
  import opened Options
  import opened Bits
  import opened Pte

  // include/common.h
  const OFFSET_LEN: nat := 10
  const PAGE_LEN: nat := 5
  const PAGE_SIZE: nat := 1024
  const RAM_SIZE: nat := 0x100000
  const NUM_PAGES: nat := 1024
  const LEVEL_SIZE: nat := 32

  /* ---------- Address splitting ---------- */

  function GetOffset(a: Word): Word { AndW(a, Not(Shl(ALL, OFFSET_LEN))) }

  function GetFirstLv(a: Word): Word
  {
    ShrBounded(a, OFFSET_LEN + PAGE_LEN);
    Shr(a, OFFSET_LEN + PAGE_LEN)
  }

  function GetSecondLv(a: Word): int {
    Shr(a, OFFSET_LEN) - Shl(GetFirstLv(a), PAGE_LEN)
  }

  lemma TableWidths()
    ensures Pow2(10) == 1024 && Pow2(15) == 32768 && Pow2(5) == 32 && Pow2(22) == 0x400000 && Pow2(27) == 0x8000000
  {
    SmallPowers();
    assert Pow2(5) == 32;
    Pow2Sum(5, 5);
    Pow2Sum(10, 5);
    SplitPowers();
  }

  lemma SplitPowers()
    ensures Pow2(22) == 0x400000 && Pow2(27) == 0x8000000
  {
    SmallPowers();
    assert Pow2(5) == 32 && Pow2(6) == 64;
    Pow2Sum(16, 6);
    Pow2Sum(22, 5);
  }

  lemma OffsetIsRemainder(a: Word)
    ensures GetOffset(a) == a % PAGE_SIZE
  {
    TableWidths();
    forall k | 0 <= k < 32 ensures Bit(GetOffset(a), k) <==> Bit(a % PAGE_SIZE, k) {
      BitAnd(a, Not(Shl(ALL, OFFSET_LEN)), k);
      BitNot(Shl(ALL, OFFSET_LEN), k);
      BitShl(ALL, OFFSET_LEN, k);
      Pow2Of32();
      if k >= 10 { BitOnes(32, k - 10); }
      BitMod(a, 10, k);
    }
    WordsEqual(GetOffset(a), a % PAGE_SIZE);
  }

  lemma FirstIsQuotient(a: Word)
    ensures GetFirstLv(a) == a / 32768
  {
    TableWidths();
    ShrIsDiv(a, 15);
  }

  lemma SecondIsRemainder(a: Word)
    ensures GetSecondLv(a) == (a / PAGE_SIZE) % LEVEL_SIZE
  {
    TableWidths();
    FirstIsQuotient(a);
    ShrIsDiv(a, 10);
    Pow2Of32();
    ShlIsMul(a / 32768, PAGE_LEN, 32);
    QuotientOfQuotient(a);
  }

  lemma QuotientOfQuotient(a: nat)
    ensures a / 1024 - 32 * (a / 32768) == (a / 1024) % 32
  {
  }

  lemma PhysicalIsSum(p: Word, off: nat)
    requires p < NUM_PAGES && off < PAGE_SIZE
    ensures Join(p, off) == p * PAGE_SIZE + off
  {
    TableWidths();
    Pow2Of32();
    ShlIsMul(p, OFFSET_LEN, 32);
    OrIsSum(p, off, OFFSET_LEN);
  }

  /* ---------- The table ---------- */

  datatype Row = Row(v: int, p: Word)

  // One entry of the first level with the second-level table it points to.
  datatype Seg = Seg(v: int, rows: seq<Row>)

  type Dir = seq<Seg>

  function FindSeg(dir: Dir, v: int, i: nat): nat
    requires i <= |dir|
    decreases |dir| - i
  {
    if i == |dir| || dir[i].v == v then i else FindSeg(dir, v, i + 1)
  }

  function FindRow(rows: seq<Row>, v: int, i: nat): nat
    requires i <= |rows|
    decreases |rows| - i
  {
    if i == |rows| || rows[i].v == v then i else FindRow(rows, v, i + 1)
  }

  function Join(p: Word, off: Word): Word { OrW(Shl(p, OFFSET_LEN), off) }

  function Translate(dir: Dir, a: Word): Option<Word> {
    FindSegBounded(dir, GetFirstLv(a), 0);
    var i := FindSeg(dir, GetFirstLv(a), 0);
    if i == |dir| then None
    else
      FindRowBounded(dir[i].rows, GetSecondLv(a), 0);
      var j := FindRow(dir[i].rows, GetSecondLv(a), 0);
      if j == |dir[i].rows| then None
      else Some(Join(dir[i].rows[j].p, GetOffset(a)))
  }

  // add_page_mapping
  function AddMapping(dir: Dir, a: Word, frame: Word): Dir {
    FindSegBounded(dir, GetFirstLv(a), 0);
    var i := FindSeg(dir, GetFirstLv(a), 0);
    var row := Row(GetSecondLv(a), frame);
    if i == |dir| then dir + [Seg(GetFirstLv(a), [row])]
    else dir[i := Seg(dir[i].v, dir[i].rows + [row])]
  }

  // Neither level of the fixed-size tables is overrun by that call.
  predicate HasRoom(dir: Dir, a: Word) {
    FindSegBounded(dir, GetFirstLv(a), 0);
    var i := FindSeg(dir, GetFirstLv(a), 0);
    if i == |dir| then |dir| < LEVEL_SIZE else |dir[i].rows| < LEVEL_SIZE
  }

  lemma {:induction false} FindSegBounded(dir: Dir, v: int, i: nat)
    requires i <= |dir|
    ensures i <= FindSeg(dir, v, i) <= |dir|
    ensures FindSeg(dir, v, i) < |dir| ==> dir[FindSeg(dir, v, i)].v == v
    ensures forall k :: i <= k < FindSeg(dir, v, i) ==> dir[k].v != v
    decreases |dir| - i
  {
    if i < |dir| && dir[i].v != v { FindSegBounded(dir, v, i + 1); }
  }

  lemma {:induction false} FindRowBounded(rows: seq<Row>, v: int, i: nat)
    requires i <= |rows|
    ensures i <= FindRow(rows, v, i) <= |rows|
    ensures FindRow(rows, v, i) < |rows| ==> rows[FindRow(rows, v, i)].v == v
    ensures forall k :: i <= k < FindRow(rows, v, i) ==> rows[k].v != v
    decreases |rows| - i
  {
    if i < |rows| && rows[i].v != v { FindRowBounded(rows, v, i + 1); }
  }

  /* ---------- What the table represents ---------- */

  // Pages 1, 2, ... of a process are mapped in order; page 0 never is.
  function First(j: nat): nat { if j == 0 then 1 else 0 }

  // How many of the pages 1 to n fall in segment j.
  function RowCount(n: nat, j: nat): nat {
    if n + 1 <= LEVEL_SIZE * j then 0
    else (if n + 1 - LEVEL_SIZE * j > LEVEL_SIZE then LEVEL_SIZE else n + 1 - LEVEL_SIZE * j) - First(j)
  }

  ghost predicate SegOk(seg: Seg, frames: seq<Word>, j: nat) {
    && seg.v == j
    && |seg.rows| == RowCount(|frames|, j)
    && forall r :: 0 <= r < |seg.rows| ==>
         LEVEL_SIZE * j + r + First(j) - 1 < |frames| &&
         seg.rows[r] == Row(r + First(j), frames[LEVEL_SIZE * j + r + First(j) - 1])
  }

  // dir is the table of a process whose page k + 1 is in frame frames[k].
  ghost predicate Represents(dir: Dir, frames: seq<Word>) {
    && |dir| == (if frames == [] then 0 else |frames| / LEVEL_SIZE + 1)
    && forall j :: 0 <= j < |dir| ==> SegOk(dir[j], frames, j)
  }

  lemma SegIndex(dir: Dir, frames: seq<Word>, v: nat)
    requires Represents(dir, frames)
    ensures FindSeg(dir, v, 0) == if v < |dir| then v else |dir|
  {
    FindSegBounded(dir, v, 0);
    assert forall j :: 0 <= j < |dir| ==> SegOk(dir[j], frames, j);
    if v < |dir| { assert dir[v].v == v; }
  }

  lemma RowIndex(seg: Seg, frames: seq<Word>, j: nat, v: nat)
    requires SegOk(seg, frames, j)
    ensures FindRow(seg.rows, v, 0) == if First(j) <= v < |seg.rows| + First(j) then v - First(j) else |seg.rows|
  {
    FindRowBounded(seg.rows, v, 0);
    if First(j) <= v < |seg.rows| + First(j) { assert seg.rows[v - First(j)].v == v; }
  }

  lemma {:induction false} AddSegOk(seg: Seg, frames: seq<Word>, j: nat, frame: Word)
    requires SegOk(seg, frames, j) && |frames| + 1 != LEVEL_SIZE * j
    ensures j == (|frames| + 1) / LEVEL_SIZE ==>
      |seg.rows| < LEVEL_SIZE &&
      SegOk(Seg(j, seg.rows + [Row((|frames| + 1) % LEVEL_SIZE, frame)]), frames + [frame], j)
    ensures j != (|frames| + 1) / LEVEL_SIZE ==> SegOk(seg, frames + [frame], j)
  {
  }

  lemma NewSegOk(frames: seq<Word>, frame: Word)
    requires frames == [] || (|frames| + 1) % LEVEL_SIZE == 0
    ensures var g := |frames| + 1;
      SegOk(Seg(g / LEVEL_SIZE, [Row(g % LEVEL_SIZE, frame)]), frames + [frame], g / LEVEL_SIZE)
  {
  }

  lemma PageAddress(n: nat)
    requires n < NUM_PAGES
    ensures n * PAGE_SIZE < WORD
    ensures GetFirstLv(n * PAGE_SIZE) == n / LEVEL_SIZE && GetSecondLv(n * PAGE_SIZE) == n % LEVEL_SIZE
  {
    FirstIsQuotient(n * PAGE_SIZE);
    SecondIsRemainder(n * PAGE_SIZE);
  }

  // Mapping the next page appends its frame, and never overruns a table.
  lemma AddRepresents(dir: Dir, frames: seq<Word>, frame: Word)
    requires Represents(dir, frames) && |frames| + 1 < NUM_PAGES
    ensures (|frames| + 1) * PAGE_SIZE < WORD
    ensures HasRoom(dir, (|frames| + 1) * PAGE_SIZE)
    ensures Represents(AddMapping(dir, (|frames| + 1) * PAGE_SIZE, frame), frames + [frame])
  {
    var g := |frames| + 1;
    PageAddress(g);
    SegIndex(dir, frames, g / LEVEL_SIZE);
    var dir' := AddMapping(dir, g * PAGE_SIZE, frame);
    forall j | 0 <= j < |dir'| ensures SegOk(dir'[j], frames + [frame], j) {
      if j < |dir| { AddSegOk(dir[j], frames, j, frame); } else { NewSegOk(frames, frame); }
    }
    if g / LEVEL_SIZE < |dir| { AddSegOk(dir[g / LEVEL_SIZE], frames, g / LEVEL_SIZE, frame); }
  }

  // translate() answers exactly for the mapped pages.
  lemma TranslateMeaning(dir: Dir, frames: seq<Word>, a: Word)
    requires Represents(dir, frames) && forall k :: 0 <= k < |frames| ==> frames[k] < NUM_PAGES
    ensures Translate(dir, a) ==
      if 1 <= a / PAGE_SIZE <= |frames|
      then Some(frames[a / PAGE_SIZE - 1] * PAGE_SIZE + a % PAGE_SIZE) else None
  {
    var g := a / PAGE_SIZE;
    FirstIsQuotient(a);
    SecondIsRemainder(a);
    OffsetIsRemainder(a);
    assert a / 32768 == g / LEVEL_SIZE;
    FindPage(dir, frames, g);
    if 1 <= g <= |frames| { PhysicalIsSum(frames[g - 1], a % PAGE_SIZE); }
  }

  // Where the two searches end for page g.
  lemma FindPage(dir: Dir, frames: seq<Word>, g: nat)
    requires Represents(dir, frames)
    ensures var i := FindSeg(dir, g / LEVEL_SIZE, 0);
      && i <= |dir|
      && (i == |dir| ==> !(1 <= g <= |frames|))
      && (i < |dir| ==>
            var j := FindRow(dir[i].rows, g % LEVEL_SIZE, 0);
            && j <= |dir[i].rows|
            && (j < |dir[i].rows| <==> 1 <= g <= |frames|)
            && (j < |dir[i].rows| ==> dir[i].rows[j].p == frames[g - 1]))
  {
    var l := g / LEVEL_SIZE;
    SegIndex(dir, frames, l);
    if l < |dir| {
      assert SegOk(dir[l], frames, l);
      RowIndex(dir[l], frames, l, g % LEVEL_SIZE);
    }
  }
}

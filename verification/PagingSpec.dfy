/** The MM_PAGING layer for any number of processes, as a value: growth of the
    mapped area over a shared free-frame list, and byte access to resident pages.
    Page-table entries are given by the frame they stand for; Paging.dfy ties them
    to the packed words. */
module PagingSpec {
  import opened Options
  import opened Bits
  import opened Pte

  // What src/mm.c and src/mm-vm.c keep of one process: its break pointer, the end
  // of its only memory area (id 0), the frame of each resident page, and the list
  // of mapped ranges, by first page, the last one first.
  datatype Space = Space(bp: nat, vmEnd: nat, pages: seq<Option<Word>>, fifo: seq<nat>)

  // One successful vm_map_ram: `count` pages from page `first` on.
  datatype Mapping = Mapping(pid: nat, first: nat, count: nat)

  // free, ram: the RAM device. maps: history.
  datatype State = State(free: seq<Word>, ram: seq<Byte>, procs: map<nat, Space>, maps: seq<Mapping>)

  datatype Op =
    | Spawn(pid: nat)
    | Grow(pid: nat, vmaid: int, size: int)
    | Get(pid: nat, a: Word)
    | Set(pid: nat, a: Word, b: Byte)

  datatype Out = Status(code: int) | Value(b: Byte)

  const RAM_LIMIT: nat := 0x200000  // frame numbers have 13 bits

  /* ---------- The functions of the source ---------- */

  function PageOf(a: nat): nat { (a / PAGING_PAGESZ) % PAGING_MAX_PGN }

  function OffsetOf(a: nat): nat { a % PAGING_PAGESZ }

  const INT_LIMIT: int := 0x8000_0000

  // Division as in C, towards zero.
  function Quotient(n: int, d: nat): int
    requires d > 0
  {
    if n >= 0 then n / d else -(-n / d)
  }

  // PAGING_PAGE_ALIGNSZ on an int.
  function AlignSz(size: int): int { Quotient(size + PAGING_PAGESZ - 1, PAGING_PAGESZ) * PAGING_PAGESZ }

  // The pages that inc_vma_limit asks for.
  function PagesOf(size: int): int { Quotient(AlignSz(size), PAGING_PAGESZ) }

  // A positive size is rounded up to whole pages; the limits move back exactly for
  // sizes of -511 and below.
  lemma AlignMeaning(size: int)
    ensures AlignSz(size) == PagesOf(size) * PAGING_PAGESZ
    ensures size >= 0 ==> size <= AlignSz(size) < size + PAGING_PAGESZ
    ensures AlignSz(size) >= 0 <==> size > -511
  {
  }

  // load and init_mm.
  function NewSpace(): Space { Space(1024, 0, seq(PAGING_MAX_PGN, _ => None), []) }

  // vmap_page_range: the first n frames at consecutive pages from address a on.
  function MapPages(pages: seq<Option<Word>>, a: nat, frames: seq<Word>, n: nat): (r: seq<Option<Word>>)
    requires |pages| == PAGING_MAX_PGN && n <= |frames|
    ensures |r| == |pages|
  {
    if n == 0 then pages
    else MapPages(pages, a, frames, n - 1)[PageOf(a + (n - 1) * PAGING_PAGESZ) := Some(frames[n - 1])]
  }

  // The arithmetic on int and on the break pointer does not overflow.
  predicate NoOverflow(sp: Space, size: int) {
    -INT_LIMIT <= size < INT_LIMIT - PAGING_PAGESZ && 0 <= sp.bp + AlignSz(size) < INT_LIMIT
  }

  // validate_overlap_vm_area on the region from bp on.
  predicate Overlaps(sp: Space) { sp.bp < sp.vmEnd }

  // inc_vma_limit, for n pages. The break pointer moves first, whatever comes of it;
  // frames popped for a request that cannot be met in full are lost. A negative
  // number of pages moves the limits back and is reported as a failure.
  function GrownBy(free: seq<Word>, sp: Space, vmaid: int, n: int): (int, seq<Word>, Space)
    requires |sp.pages| == PAGING_MAX_PGN && 0 <= sp.bp + n * PAGING_PAGESZ
  {
    var bumped := sp.(bp := sp.bp + n * PAGING_PAGESZ);
    if vmaid > 0 || Overlaps(sp) then (-1, free, bumped)
    else if n < 0 then (-1, free, bumped.(vmEnd := bumped.bp))
    else if |free| < n then (-1, [], bumped.(vmEnd := bumped.bp))
    else (0, free[n..], bumped.(vmEnd := bumped.bp, pages := MapPages(sp.pages, sp.vmEnd, free, n),
                                fifo := [PageOf(sp.vmEnd)] + sp.fifo))
  }

  function Grown(free: seq<Word>, sp: Space, vmaid: int, size: int): (int, seq<Word>, Space)
    requires |sp.pages| == PAGING_MAX_PGN && NoOverflow(sp, size)
  {
    AlignMeaning(size);
    GrownBy(free, sp, vmaid, PagesOf(size))
  }

  predicate Resident(sp: Space, p: nat) { p < |sp.pages| && sp.pages[p].Some? }

  // The physical address behind an address of a resident page.
  function Phys(sp: Space, a: nat): nat
    requires Resident(sp, PageOf(a))
  {
    sp.pages[PageOf(a)].value * PAGING_PAGESZ + OffsetOf(a)
  }

  // The frames that are left fit between bp and the end of the 4 MB space.
  predicate Roomy(free: seq<Word>, bp: nat) { free == [] || bp + |free| * PAGING_PAGESZ <= PAGING_SPACE }

  // No resident page lies at or beyond the address.
  ghost predicate MappedBelow(sp: Space, end: int) {
    forall p: nat :: Resident(sp, p) ==> p * PAGING_PAGESZ < end
  }

  // The size leaves every resident page below the area's end; for an area that does
  // not exist, which moves the break pointer only, it leaves the break pointer there.
  ghost predicate LeavesNothingBehind(sp: Space, vmaid: int, size: int) {
    if vmaid > 0 then sp.vmEnd <= sp.bp + AlignSz(size) else MappedBelow(sp, sp.bp + AlignSz(size))
  }

  // Growth by any size, of either sign, that leaves no resident page behind; for an
  // area that does not exist it leaves room. Access to resident pages.
  ghost predicate Valid(s: State, op: Op) {
    match op
    case Spawn(pid) => pid !in s.procs
    case Grow(pid, vmaid, size) =>
      && pid in s.procs && NoOverflow(s.procs[pid], size) && LeavesNothingBehind(s.procs[pid], vmaid, size)
      && (vmaid > 0 ==> Roomy(s.free, s.procs[pid].bp + AlignSz(size)))
    case _ => op.pid in s.procs && Resident(s.procs[op.pid], PageOf(op.a))
  }

  predicate Shape(s: State) {
    forall pid :: pid in s.procs ==> |s.procs[pid].pages| == PAGING_MAX_PGN
  }

  function AfterGrow(s: State, pid: nat, vmaid: int, size: int): (State, Out)
    requires pid in s.procs && |s.procs[pid].pages| == PAGING_MAX_PGN && NoOverflow(s.procs[pid], size)
  {
    var sp := s.procs[pid];
    var g := Grown(s.free, sp, vmaid, size);
    var maps := if g.0 == 0 && PagesOf(size) >= 0
                then s.maps + [Mapping(pid, sp.vmEnd / PAGING_PAGESZ, PagesOf(size))] else s.maps;
    (s.(free := g.1, procs := s.procs[pid := g.2], maps := maps), Status(g.0))
  }

  function Apply(s: State, op: Op): (State, Out)
    requires Shape(s) && Valid(s, op)
  {
    match op
    case Spawn(pid) => (s.(procs := s.procs[pid := NewSpace()]), Status(0))
    case Grow(pid, vmaid, size) => AfterGrow(s, pid, vmaid, size)
    case Get(pid, a) =>
      var k := Phys(s.procs[pid], a);
      (s, if k < |s.ram| then Value(s.ram[k]) else Status(-1))
    case Set(pid, a, b) =>
      var k := Phys(s.procs[pid], a);
      (if k < |s.ram| then s.(ram := s.ram[k := b]) else s, Status(0))
  }

  // A device of that size, formatted, and no process.
  function Initial(size: nat): State
    requires size <= RAM_LIMIT
  {
    State(seq(size / PAGING_PAGESZ, k requires 0 <= k < size / PAGING_PAGESZ => k), seq(size, _ => 0), map[], [])
  }

  // Beyond the space, addresses alias pages from 0 on.
  lemma BeyondSpaceAliases(a: nat)
    ensures PageOf(a + PAGING_SPACE) == PageOf(a)
  {
  }

  // Within the space, exactly the pages of the range are set, each to its frame.
  lemma {:induction false} MapPagesAt(pages: seq<Option<Word>>, a: nat, frames: seq<Word>, n: nat, p: nat)
    requires |pages| == PAGING_MAX_PGN && n <= |frames| && p < PAGING_MAX_PGN
    requires a % PAGING_PAGESZ == 0 && a + n * PAGING_PAGESZ <= PAGING_SPACE
    ensures MapPages(pages, a, frames, n)[p] ==
      if a / PAGING_PAGESZ <= p < a / PAGING_PAGESZ + n then Some(frames[p - a / PAGING_PAGESZ]) else pages[p]
  {
    if n > 0 {
      MapPagesAt(pages, a, frames, n - 1, p);
      assert PageOf(a + (n - 1) * PAGING_PAGESZ) == a / PAGING_PAGESZ + n - 1;
    }
  }

  lemma {:induction false} MapPagesPrefix(pages: seq<Option<Word>>, a: nat, frames: seq<Word>, m: nat, n: nat)
    requires |pages| == PAGING_MAX_PGN && n <= m <= |frames|
    ensures MapPages(pages, a, frames[..m], n) == MapPages(pages, a, frames, n)
  {
    if n > 0 { MapPagesPrefix(pages, a, frames, m, n - 1); }
  }

  /* ---------- The invariant ---------- */

  // vm_end has not passed the break pointer, and both are page-aligned.
  ghost predicate LimitsOk(sp: Space) {
    && |sp.pages| == PAGING_MAX_PGN
    && sp.vmEnd <= sp.bp < INT_LIMIT
    && sp.vmEnd % PAGING_PAGESZ == 0 && sp.bp % PAGING_PAGESZ == 0
  }

  // And everything mapped lies below vm_end.
  ghost predicate SpaceOk(sp: Space) { LimitsOk(sp) && MappedBelow(sp, sp.vmEnd) }

  ghost predicate Distinct(frames: seq<Word>) {
    forall i, j :: 0 <= i < j < |frames| ==> frames[i] != frames[j]
  }

  ghost predicate FrameInRam(s: State, f: nat) { (f + 1) * PAGING_PAGESZ <= |s.ram| }

  ghost predicate ZeroFrame(s: State, f: nat)
    requires FrameInRam(s, f)
  {
    forall o :: f * PAGING_PAGESZ <= o < (f + 1) * PAGING_PAGESZ ==> s.ram[o] == 0
  }

  // Free frames are zero and mapped nowhere.
  ghost predicate FreeOk(s: State) {
    && Distinct(s.free)
    && (forall i :: 0 <= i < |s.free| ==> FrameInRam(s, s.free[i]) && ZeroFrame(s, s.free[i]))
  }

  predicate Maps(s: State, pid: nat, p: nat) { pid in s.procs && Resident(s.procs[pid], p) }

  function FrameOf(s: State, pid: nat, p: nat): Word
    requires Maps(s, pid, p)
  {
    s.procs[pid].pages[p].value
  }

  // No frame is mapped twice, in one process or across processes, or mapped and free.
  ghost predicate MappedOk(s: State) {
    && (forall pid, p :: Maps(s, pid, p) ==> FrameInRam(s, FrameOf(s, pid, p)) && FrameOf(s, pid, p) !in s.free)
    && (forall pid, p, pid', p' :: Maps(s, pid, p) && Maps(s, pid', p') && (pid, p) != (pid', p') ==>
          FrameOf(s, pid, p) != FrameOf(s, pid', p'))
  }

  predicate Covers(m: Mapping, pid: nat, p: nat) { m.pid == pid && m.first <= p < m.first + m.count }

  // Each mapping call mapped its own pages, apart from those of every other call.
  ghost predicate HistoryOk(s: State) {
    && (forall k :: 0 <= k < |s.maps| ==> MappingOk(s, s.maps[k]))
    && (forall j, k, p :: 0 <= j < k < |s.maps| && Covers(s.maps[j], s.maps[j].pid, p) ==>
          !Covers(s.maps[k], s.maps[j].pid, p))
  }

  ghost predicate MappingOk(s: State, m: Mapping) {
    m.pid in s.procs && forall p :: Covers(m, m.pid, p) ==> Resident(s.procs[m.pid], p)
  }

  // Resident pages are those of the successful calls.
  ghost predicate Explained(s: State, pid: nat, p: nat) {
    Maps(s, pid, p) ==> exists k :: 0 <= k < |s.maps| && Covers(s.maps[k], pid, p)
  }

  ghost predicate Inv(s: State) {
    && |s.free| * PAGING_PAGESZ <= |s.ram| <= RAM_LIMIT
    && (forall pid :: pid in s.procs ==> SpaceOk(s.procs[pid]) && Roomy(s.free, s.procs[pid].bp))
    && FreeOk(s) && MappedOk(s) && HistoryOk(s)
    && (forall pid, p :: Explained(s, pid, p))
  }

  /* ---------- Growth of one space ---------- */

  // What a call does to the space and the free list, in full; and that the overlap
  // check does not fire.
  lemma GrownMeaning(free: seq<Word>, sp: Space, vmaid: int, size: int)
    requires LimitsOk(sp) && NoOverflow(sp, size)
    ensures !Overlaps(sp)
    ensures var (code, free', sp') := Grown(free, sp, vmaid, size);
      var n, first := PagesOf(size), sp.vmEnd / PAGING_PAGESZ;
      && sp'.bp == sp.bp + n * PAGING_PAGESZ && |sp'.pages| == PAGING_MAX_PGN
      && sp'.vmEnd == (if vmaid > 0 then sp.vmEnd else sp'.bp)
      && (code == 0 <==> vmaid <= 0 && 0 <= n <= |free|)
      && (code != 0 ==> code == -1 && sp'.pages == sp.pages && sp'.fifo == sp.fifo)
      && (code != 0 ==> free' == if vmaid > 0 || n < 0 then free else [])
      && (code == 0 ==> free' == free[n..] && sp'.fifo == [PageOf(sp.vmEnd)] + sp.fifo)
      && (code == 0 && (n == 0 || first + n <= PAGING_MAX_PGN) ==>
            (forall p :: 0 <= p < PAGING_MAX_PGN ==>
                  sp'.pages[p] == if first <= p < first + n then Some(free[p - first]) else sp.pages[p]))
  {
    var n, first := PagesOf(size), sp.vmEnd / PAGING_PAGESZ;
    AlignMeaning(size);
    if vmaid <= 0 && 0 < n <= |free| && first + n <= PAGING_MAX_PGN {
      forall p | 0 <= p < PAGING_MAX_PGN
        ensures MapPages(sp.pages, sp.vmEnd, free, n)[p] ==
          if first <= p < first + n then Some(free[p - first]) else sp.pages[p]
      {
        MapPagesAt(sp.pages, sp.vmEnd, free, n, p);
      }
    }
  }

  // Where the area's end has passed the break pointer, the overlap check fires: only
  // the break pointer moves.
  lemma OverlapRefused(free: seq<Word>, sp: Space, vmaid: int, size: int)
    requires |sp.pages| == PAGING_MAX_PGN && NoOverflow(sp, size) && sp.bp < sp.vmEnd
    ensures var (code, free', sp') := Grown(free, sp, vmaid, size);
      && code == -1 && free' == free && sp'.bp == sp.bp + AlignSz(size)
      && sp'.vmEnd == sp.vmEnd && sp'.pages == sp.pages && sp'.fifo == sp.fifo
  {
    AlignMeaning(size);
  }

  // A call that finds its frames has room for them.
  lemma GrownFits(free: seq<Word>, sp: Space, size: int)
    requires LimitsOk(sp) && Roomy(free, sp.bp) && 0 < PagesOf(size) <= |free|
    ensures sp.vmEnd / PAGING_PAGESZ + PagesOf(size) <= PAGING_MAX_PGN
  {
  }

  // Forward, the pages that become resident end at the new limit at the latest.
  lemma ForwardKeepsSpace(free: seq<Word>, sp: Space, size: int)
    requires SpaceOk(sp) && NoOverflow(sp, size) && Roomy(free, sp.bp) && 0 <= PagesOf(size)
    ensures SpaceOk(Grown(free, sp, 0, size).2)
  {
    var n, sp' := PagesOf(size), Grown(free, sp, 0, size).2;
    AlignMeaning(size);
    GrownMeaning(free, sp, 0, size);
    if 0 < n <= |free| { GrownFits(free, sp, size); }
    forall p: nat | Resident(sp', p) ensures p * PAGING_PAGESZ < sp'.vmEnd {
      assert Resident(sp, p) || p < sp.vmEnd / PAGING_PAGESZ + n;
    }
  }

  // The new limits are in order, with everything mapped below them, exactly if the
  // size leaves nothing behind.
  lemma LimitsKeptIff(free: seq<Word>, sp: Space, vmaid: int, size: int)
    requires SpaceOk(sp) && NoOverflow(sp, size) && Roomy(free, sp.bp)
    ensures SpaceOk(Grown(free, sp, vmaid, size).2) <==> LeavesNothingBehind(sp, vmaid, size)
  {
    var sp' := Grown(free, sp, vmaid, size).2;
    AlignMeaning(size);
    GrownMeaning(free, sp, vmaid, size);
    if vmaid <= 0 && PagesOf(size) >= 0 {
      ForwardKeepsSpace(free, sp, size);
      assert MappedBelow(sp, sp.bp + AlignSz(size));
    } else {
      assert forall p: nat :: Resident(sp', p) <==> Resident(sp, p);
    }
  }

  lemma GrownKeepsSpace(free: seq<Word>, sp: Space, vmaid: int, size: int)
    requires SpaceOk(sp) && NoOverflow(sp, size) && Roomy(free, sp.bp) && LeavesNothingBehind(sp, vmaid, size)
    requires vmaid > 0 ==> Roomy(free, sp.bp + AlignSz(size))
    ensures var (_, free', sp') := Grown(free, sp, vmaid, size); SpaceOk(sp') && Roomy(free', sp'.bp)
  {
    AlignMeaning(size);
    GrownMeaning(free, sp, vmaid, size);
    LimitsKeptIff(free, sp, vmaid, size);
  }

  /* ---------- Sizes that move the limits back ---------- */

  // A call by such a size leaves room for one growth by as many pages as are free.
  lemma ShrinkLeavesRoom(free: seq<Word>, sp: Space, size: int, n: nat)
    requires LimitsOk(sp) && NoOverflow(sp, size) && Roomy(free, sp.bp) && size <= -511 && n <= |free|
    ensures var (code, free', sp') := Grown(free, sp, 0, size);
      && code == -1 && free' == free && sp'.pages == sp.pages
      && sp'.vmEnd == sp'.bp == sp.bp + AlignSz(size) < sp.bp
      && LimitsOk(sp') && NoOverflow(sp', n * PAGING_PAGESZ) && PagesOf(n * PAGING_PAGESZ) == n
      && (n == 0 || sp'.vmEnd / PAGING_PAGESZ + n <= PAGING_MAX_PGN)
  {
    AlignMeaning(size);
    AlignMeaning(n * PAGING_PAGESZ);
    GrownMeaning(free, sp, 0, size);
  }

  // The space after a call by such a size and a growth by n pages.
  function Regrown(free: seq<Word>, sp: Space, size: int, n: nat): Space
    requires LimitsOk(sp) && NoOverflow(sp, size) && Roomy(free, sp.bp) && size <= -511 && n <= |free|
  {
    ShrinkLeavesRoom(free, sp, size, n);
    Grown(free, Grown(free, sp, 0, size).2, 0, n * PAGING_PAGESZ).2
  }

  // It maps the first free frames from where the limits have moved back to.
  lemma RegrownPages(free: seq<Word>, sp: Space, size: int, n: nat)
    requires LimitsOk(sp) && NoOverflow(sp, size) && Roomy(free, sp.bp) && size <= -511 && n <= |free|
    ensures var sp', first := Regrown(free, sp, size, n), (sp.bp + AlignSz(size)) / PAGING_PAGESZ;
      && |sp'.pages| == PAGING_MAX_PGN
      && forall p :: 0 <= p < PAGING_MAX_PGN ==>
           sp'.pages[p] == if first <= p < first + n then Some(free[p - first]) else sp.pages[p]
  {
    ShrinkLeavesRoom(free, sp, size, n);
    GrownMeaning(free, Grown(free, sp, 0, size).2, 0, n * PAGING_PAGESZ);
  }

  // A growth by n pages after a call by that size gives a resident page another frame.
  ghost predicate Remaps(free: seq<Word>, sp: Space, size: int, n: nat, p: nat)
    requires LimitsOk(sp) && NoOverflow(sp, size) && Roomy(free, sp.bp) && size <= -511
  {
    && n <= |free| && Resident(sp, p)
    && p < |Regrown(free, sp, size, n).pages| && Regrown(free, sp, size, n).pages[p] != sp.pages[p]
  }

  // A resident page within reach of the free frames from where the limits have moved
  // back to.
  ghost predicate InReach(free: seq<Word>, sp: Space, size: int, p: nat) {
    Resident(sp, p) && sp.bp + AlignSz(size) <= p * PAGING_PAGESZ < sp.bp + AlignSz(size) + |free| * PAGING_PAGESZ
  }

  lemma RemapsInReach(free: seq<Word>, sp: Space, size: int, n: nat, p: nat)
    requires LimitsOk(sp) && NoOverflow(sp, size) && Roomy(free, sp.bp) && size <= -511
    requires Remaps(free, sp, size, n, p)
    ensures InReach(free, sp, size, p)
  {
    RegrownPages(free, sp, size, n);
    AlignMeaning(size);
  }

  lemma InReachRemaps(free: seq<Word>, sp: Space, size: int, p: nat)
    requires LimitsOk(sp) && NoOverflow(sp, size) && Roomy(free, sp.bp) && size <= -511
    requires InReach(free, sp, size, p) && sp.pages[p].value !in free
    ensures Remaps(free, sp, size, |free|, p)
  {
    RegrownPages(free, sp, size, |free|);
    AlignMeaning(size);
  }

  // Where free frames are mapped nowhere, some next growth does that exactly if a
  // resident page lies within reach.
  lemma RemapsIff(free: seq<Word>, sp: Space, size: int)
    requires LimitsOk(sp) && NoOverflow(sp, size) && Roomy(free, sp.bp) && size <= -511
    requires forall p: nat :: Resident(sp, p) ==> sp.pages[p].value !in free
    ensures (exists n: nat, p: nat :: Remaps(free, sp, size, n, p)) <==> (exists p: nat :: InReach(free, sp, size, p))
  {
    if n: nat, p: nat :| Remaps(free, sp, size, n, p) { RemapsInReach(free, sp, size, n, p); }
    if p: nat :| InReach(free, sp, size, p) { InReachRemaps(free, sp, size, p); }
  }

  // Frame numbers fit in a page-table entry.
  lemma FramesFit(s: State)
    requires Inv(s)
    ensures Shape(s) && forall k :: 0 <= k < |s.free| ==> s.free[k] < 8192
  {
  }

  /* ---------- Every operation keeps the invariant ---------- */

  // t is s after n free frames have been mapped at the pages from `first` on.
  ghost predicate Extends(s: State, t: State, pid: nat, first: nat, n: nat) {
    && n <= |s.free| && t.free == s.free[n..] && t.ram == s.ram
    && pid in s.procs && pid in t.procs && t.procs == s.procs[pid := t.procs[pid]]
    && |s.procs[pid].pages| == PAGING_MAX_PGN == |t.procs[pid].pages|
    && (forall p :: 0 <= p < PAGING_MAX_PGN ==>
          t.procs[pid].pages[p] == if first <= p < first + n then Some(s.free[p - first]) else s.procs[pid].pages[p])
  }

  lemma ExtendsKeepsFree(s: State, t: State, pid: nat, first: nat, n: nat)
    requires FreeOk(s) && Extends(s, t, pid, first, n)
    ensures FreeOk(t)
  {
  }

  // Where a mapping of t comes from.
  lemma ExtendsMaps(s: State, t: State, pid: nat, first: nat, n: nat, q: nat, p: nat)
    requires FreeOk(s) && MappedOk(s) && Extends(s, t, pid, first, n) && Maps(t, q, p)
    ensures q == pid && first <= p < first + n ==> FrameOf(t, q, p) == s.free[p - first]
    ensures !(q == pid && first <= p < first + n) ==>
      Maps(s, q, p) && FrameOf(t, q, p) == FrameOf(s, q, p) && FrameOf(s, q, p) !in s.free
    ensures FrameInRam(t, FrameOf(t, q, p)) && FrameOf(t, q, p) !in t.free
  {
    if q == pid && first <= p < first + n {
      assert FrameInRam(s, s.free[p - first]);
      assert forall i :: 0 <= i < |t.free| ==> t.free[i] == s.free[i + n];
    } else {
      assert Maps(s, q, p);
      assert forall i :: 0 <= i < |t.free| ==> t.free[i] == s.free[i + n];
      assert forall i :: 0 <= i < |s.free| ==> s.free[i] in s.free;
    }
  }

  lemma ExtendsKeepsMapped(s: State, t: State, pid: nat, first: nat, n: nat)
    requires FreeOk(s) && MappedOk(s) && Extends(s, t, pid, first, n)
    ensures MappedOk(t)
  {
    forall q, p | Maps(t, q, p) ensures FrameInRam(t, FrameOf(t, q, p)) && FrameOf(t, q, p) !in t.free {
      ExtendsMaps(s, t, pid, first, n, q, p);
    }
    forall q, p, q', p' | Maps(t, q, p) && Maps(t, q', p') && (q, p) != (q', p')
      ensures FrameOf(t, q, p) != FrameOf(t, q', p')
    {
      ExtendsMaps(s, t, pid, first, n, q, p);
      ExtendsMaps(s, t, pid, first, n, q', p');
    }
  }

  // The new range has no page that was resident before.
  lemma HistoryGrows(s: State, t: State, m: Mapping)
    requires HistoryOk(s) && t.maps == s.maps + [m]
    requires m.pid in s.procs && t.procs.Keys == s.procs.Keys
    requires forall p :: Covers(m, m.pid, p) ==> !Resident(s.procs[m.pid], p)
    requires forall q :: q in s.procs ==> Later(s.procs[q], t.procs[q])
    requires MappingOk(t, m)
    ensures HistoryOk(t)
  {
    forall k | 0 <= k < |t.maps| ensures MappingOk(t, t.maps[k]) {
      if k < |s.maps| { LaterMapping(s, t, s.maps[k]); }
    }
    forall j, k, p | 0 <= j < k < |t.maps| && Covers(t.maps[j], t.maps[j].pid, p)
      ensures !Covers(t.maps[k], t.maps[j].pid, p)
    {
      assert MappingOk(s, s.maps[j]);
    }
  }

  // Resident pages stay.
  ghost predicate Later(sp: Space, sp': Space) { forall p :: Resident(sp, p) ==> Resident(sp', p) }

  lemma LaterMapping(s: State, t: State, m: Mapping)
    requires MappingOk(s, m) && s.procs.Keys <= t.procs.Keys
    requires forall q :: q in s.procs ==> Later(s.procs[q], t.procs[q])
    ensures MappingOk(t, m)
  {
  }

  lemma HistoryStays(s: State, t: State)
    requires HistoryOk(s) && t.maps == s.maps && s.procs.Keys <= t.procs.Keys
    requires forall q :: q in s.procs ==> Later(s.procs[q], t.procs[q])
    ensures HistoryOk(t)
  {
  }

  // Nothing mapped, nothing freed: the frames keep their places.
  lemma SameMaps(s: State, t: State)
    requires MappedOk(s) && FreeOk(s) && t.ram == s.ram && (t.free == s.free || t.free == [])
    requires forall q, p :: Maps(t, q, p) ==> Maps(s, q, p) && FrameOf(t, q, p) == FrameOf(s, q, p)
    ensures MappedOk(t) && FreeOk(t)
  {
  }

  lemma ExplainedGrows(s: State, t: State, first: nat, n: nat, m: Mapping, q: nat, p: nat)
    requires Explained(s, q, p) && Extends(s, t, m.pid, first, n)
    requires m == Mapping(m.pid, first, n) && t.maps == s.maps + [m]
    ensures Explained(t, q, p)
  {
    if Maps(t, q, p) {
      if q == m.pid && first <= p < first + n {
        assert Covers(t.maps[|s.maps|], q, p);
      } else {
        assert Maps(s, q, p);
        var k :| 0 <= k < |s.maps| && Covers(s.maps[k], q, p);
        assert t.maps[k] == s.maps[k];
      }
    }
  }

  lemma ExplainedStays(s: State, t: State, q: nat, p: nat)
    requires Explained(s, q, p) && t.maps == s.maps && (Maps(t, q, p) ==> Maps(s, q, p))
    ensures Explained(t, q, p)
  {
  }

  // The free list never grows, so nobody runs out of room.
  lemma StaysRoomy(free: seq<Word>, free': seq<Word>, bp: nat)
    requires Roomy(free, bp) && |free'| <= |free|
    ensures Roomy(free', bp)
  {
  }

  // The space after a call that is met in full.
  lemma FullGrown(free: seq<Word>, sp: Space, vmaid: int, size: int)
    requires SpaceOk(sp) && Roomy(free, sp.bp) && NoOverflow(sp, size)
    requires vmaid <= 0 && 0 <= PagesOf(size) <= |free|
    ensures var (code, free', sp') := Grown(free, sp, vmaid, size);
      var n, first := PagesOf(size), sp.vmEnd / PAGING_PAGESZ;
      && code == 0 && free' == free[n..] && SpaceOk(sp') && Roomy(free', sp'.bp)
      && (n > 0 ==> first + n <= PAGING_MAX_PGN)
      && (forall p :: first <= p < first + n ==> !Resident(sp, p))
  {
    AlignMeaning(size);
    GrownMeaning(free, sp, vmaid, size);
    if PagesOf(size) > 0 { GrownFits(free, sp, size); }
    GrownKeepsSpace(free, sp, vmaid, size);
  }

  lemma FullGrowExtends(s: State, pid: nat, vmaid: int, size: int)
    requires pid in s.procs && SpaceOk(s.procs[pid]) && Roomy(s.free, s.procs[pid].bp)
    requires NoOverflow(s.procs[pid], size) && vmaid <= 0 && 0 <= PagesOf(size) <= |s.free|
    ensures var t := AfterGrow(s, pid, vmaid, size).0;
      var m := Mapping(pid, s.procs[pid].vmEnd / PAGING_PAGESZ, PagesOf(size));
      && Extends(s, t, pid, m.first, m.count) && t.maps == s.maps + [m]
  {
    AlignMeaning(size);
    GrownMeaning(s.free, s.procs[pid], vmaid, size);
    if PagesOf(size) > 0 { GrownFits(s.free, s.procs[pid], size); }
  }

  lemma ExtendsKeepsHistory(s: State, t: State, m: Mapping)
    requires HistoryOk(s) && (forall q, p :: Explained(s, q, p))
    requires Extends(s, t, m.pid, m.first, m.count) && t.maps == s.maps + [m]
    requires forall p :: Covers(m, m.pid, p) ==> !Resident(s.procs[m.pid], p)
    requires m.count > 0 ==> m.first + m.count <= PAGING_MAX_PGN
    ensures HistoryOk(t) && forall q, p :: Explained(t, q, p)
  {
    assert Later(s.procs[m.pid], t.procs[m.pid]) && MappingOk(t, m);
    HistoryGrows(s, t, m);
    forall q, p ensures Explained(t, q, p) { ExplainedGrows(s, t, m.first, m.count, m, q, p); }
  }

  lemma FullGrowKeepsInv(s: State, pid: nat, vmaid: int, size: int)
    requires Inv(s) && Valid(s, Grow(pid, vmaid, size)) && vmaid <= 0 && 0 <= PagesOf(size) <= |s.free|
    ensures Inv(AfterGrow(s, pid, vmaid, size).0)
  {
    FullGrown(s.free, s.procs[pid], vmaid, size);
    FullGrowExtends(s, pid, vmaid, size);
    var t, n, first := AfterGrow(s, pid, vmaid, size).0, PagesOf(size), s.procs[pid].vmEnd / PAGING_PAGESZ;
    ExtendsKeepsFree(s, t, pid, first, n);
    ExtendsKeepsMapped(s, t, pid, first, n);
    ExtendsKeepsHistory(s, t, Mapping(pid, first, n));
    forall q | q in t.procs ensures SpaceOk(t.procs[q]) && Roomy(t.free, t.procs[q].bp) {
      if q != pid { StaysRoomy(s.free, t.free, s.procs[q].bp); }
    }
  }

  // A call that fails maps nothing.
  lemma FailedGrowKeepsInv(s: State, pid: nat, vmaid: int, size: int)
    requires Inv(s) && Valid(s, Grow(pid, vmaid, size))
    requires vmaid > 0 || PagesOf(size) < 0 || |s.free| < PagesOf(size)
    ensures Inv(AfterGrow(s, pid, vmaid, size).0)
  {
    var sp, t := s.procs[pid], AfterGrow(s, pid, vmaid, size).0;
    AlignMeaning(size);
    GrownMeaning(s.free, sp, vmaid, size);
    GrownKeepsSpace(s.free, sp, vmaid, size);
    assert forall q, p :: Maps(t, q, p) ==> Maps(s, q, p) && FrameOf(t, q, p) == FrameOf(s, q, p);
    SameMaps(s, t);
    assert Later(sp, t.procs[pid]);
    HistoryStays(s, t);
    forall q, p ensures Explained(t, q, p) { ExplainedStays(s, t, q, p); }
    forall q | q in t.procs ensures Roomy(t.free, t.procs[q].bp) {
      if q != pid { StaysRoomy(s.free, t.free, s.procs[q].bp); }
    }
  }

  lemma SpawnKeepsInv(s: State, pid: nat)
    requires Inv(s) && pid !in s.procs
    ensures Inv(Apply(s, Spawn(pid)).0)
  {
    var t := Apply(s, Spawn(pid)).0;
    assert forall q, p :: Maps(t, q, p) ==> Maps(s, q, p) && FrameOf(t, q, p) == FrameOf(s, q, p);
    SameMaps(s, t);
    HistoryStays(s, t);
    forall q, p ensures Explained(t, q, p) { ExplainedStays(s, t, q, p); }
  }

  lemma PhysInRam(s: State, pid: nat, a: Word)
    requires Inv(s) && Maps(s, pid, PageOf(a))
    ensures Phys(s.procs[pid], a) < |s.ram|
    ensures Phys(s.procs[pid], a) / PAGING_PAGESZ == FrameOf(s, pid, PageOf(a)) && FrameOf(s, pid, PageOf(a)) !in s.free
    ensures FrameOf(s, pid, PageOf(a)) < 8192
  {
    assert FrameInRam(s, FrameOf(s, pid, PageOf(a)));
  }

  // What access to a resident page comes to.
  lemma Access(s: State, pid: nat, a: Word, b: Byte)
    requires Inv(s) && Maps(s, pid, PageOf(a))
    ensures Shape(s)
    ensures var k := FrameOf(s, pid, PageOf(a)) % 8192 * PAGING_PAGESZ + OffsetOf(a);
      && k < |s.ram|
      && Apply(s, Get(pid, a)) == (s, Value(s.ram[k]))
      && Apply(s, Set(pid, a, b)) == (s.(ram := s.ram[k := b]), Status(0))
  {
    FramesFit(s);
    PhysInRam(s, pid, a);
  }

  lemma SetKeepsInv(s: State, pid: nat, a: Word, b: Byte)
    requires Inv(s) && Maps(s, pid, PageOf(a))
    ensures Inv(Apply(s, Set(pid, a, b)).0)
  {
    var t := Apply(s, Set(pid, a, b)).0;
    PhysInRam(s, pid, a);
    forall i | 0 <= i < |t.free| ensures FrameInRam(t, t.free[i]) && ZeroFrame(t, t.free[i]) {
      assert FrameInRam(s, s.free[i]) && ZeroFrame(s, s.free[i]) && s.free[i] in s.free;
    }
    forall q, p ensures Explained(t, q, p) { ExplainedStays(s, t, q, p); }
    forall q, p | Maps(t, q, p) ensures FrameInRam(t, FrameOf(t, q, p)) && FrameOf(t, q, p) !in t.free {
      assert Maps(s, q, p);
    }
    forall q, p, q', p' | Maps(t, q, p) && Maps(t, q', p') && (q, p) != (q', p')
      ensures FrameOf(t, q, p) != FrameOf(t, q', p')
    {
      assert Maps(s, q, p) && Maps(s, q', p');
    }
    HistoryStays(s, t);
  }

  lemma StepKeepsInv(s: State, op: Op)
    requires Inv(s) && Valid(s, op)
    ensures Inv(Apply(s, op).0)
  {
    match op
    case Spawn(pid) => SpawnKeepsInv(s, pid);
    case Grow(pid, vmaid, size) =>
      if vmaid > 0 || PagesOf(size) < 0 || |s.free| < PagesOf(size) { FailedGrowKeepsInv(s, pid, vmaid, size); }
      else { FullGrowKeepsInv(s, pid, vmaid, size); }
    case Get(pid, a) =>
    case Set(pid, a, b) => SetKeepsInv(s, pid, a, b);
  }

  lemma InitialInv(size: nat)
    requires size <= RAM_LIMIT
    ensures Inv(Initial(size))
  {
  }
}

/** src/mm.c, src/mm-vm.c and the byte access of src/libmem.c on packed page-table
    entries and linked lists, each proved to do what PagingSpec says. */
module Paging {
  import opened Options
  import opened Bits
  import opened Pte
  import P = PagingSpec
  import opened Memphy
  import A = VmArea

  /* ---------- Packed entries ---------- */

  // The entry stands for this page, as far as 13 bits hold its frame.
  ghost predicate Shows(pte: Word, page: Option<Word>) {
    (Present(pte) <==> page.Some?) && (page.Some? ==> Fpn(pte) == page.value % 8192)
  }

  lemma ZeroShowsNone()
    ensures Shows(0, None)
  {
    TestBit(0, 31);
    BitOfZero(31);
  }

  lemma SetFpnShows(pte: Word, fpn: Word)
    ensures Shows(PteSetFpn(pte, fpn), Some(fpn))
  {
    PteSetFpnMeaning(pte, fpn);
  }

  method PteSet(pgd: array<Word>, p: nat, fpn: Word)
    requires p < pgd.Length
    modifies pgd
    ensures Shows(pgd[p], Some(fpn))
    ensures forall q :: 0 <= q < pgd.Length && q != p ==> pgd[q] == old(pgd[q])
  {
    SetFpnShows(pgd[p], fpn);
    pgd[p] := PteSetFpn(pgd[p], fpn);
  }

  // PAGING_PGN and PAGING_OFFST.
  method SplitAddress(a: Word) returns (pgn: nat, off: nat)
    ensures pgn == P.PageOf(a) < PAGING_MAX_PGN && off == P.OffsetOf(a)
  {
    PgnIsQuotient(a);
    OffstIsRemainder(a);
    pgn, off := Pgn(a), Offst(a);
  }

  /* ---------- alloc_pages_range ---------- */

  // A list under construction, with its last node.
  ghost predicate Building(head: FrameNode?, tail: FrameNode?, nodes: seq<FrameNode>, fpns: seq<Word>)
    reads nodes
  {
    && IsChain(nodes, fpns) && head == FirstOf(nodes, 0)
    && tail == (if nodes == [] then null else nodes[|nodes| - 1])
  }

  method AddFrame(head: FrameNode?, tail: FrameNode?, fpn: Word, ghost nodes: seq<FrameNode>, ghost fpns: seq<Word>)
    returns (head': FrameNode?, temp: FrameNode)
    requires Building(head, tail, nodes, fpns)
    modifies tail
    ensures fresh(temp) && Building(head', temp, nodes + [temp], fpns + [fpn])
  {
    temp := new FrameNode(fpn, null);
    if head == null {
      head' := temp;
    } else {
      tail.next := temp;
      head' := head;
    }
  }

  // The free list after n frames have been taken.
  ghost predicate Taken(mram: Device, was: seq<Word>, had: seq<FrameNode>, n: nat)
    reads mram, mram.nodes
  {
    mram.Valid() && n <= |was| == |had| && mram.free == was[n..] && mram.nodes == had[n..]
  }

  // One iteration: the next free frame, if there is one, goes to the end of the list.
  method TakeFrame(mram: Device, head: FrameNode?, tail: FrameNode?, ghost nodes: seq<FrameNode>,
                   ghost was: seq<Word>, ghost had: seq<FrameNode>, ghost n: nat)
    returns (ok: bool, head': FrameNode?, tail': FrameNode?)
    requires Taken(mram, was, had, n) && Building(head, tail, nodes, was[..n]) && tail !in mram.nodes
    modifies mram`freeList, mram`nodes, mram`free, tail
    ensures ok <==> n < |was|
    ensures !ok ==> mram.Valid() && mram.free == []
    ensures ok ==> Taken(mram, was, had, n + 1)
    ensures ok ==> tail' != null && fresh(tail') && Building(head', tail', nodes + [tail'], was[..n + 1])
  {
    head', tail' := head, tail;
    var got, fpn := mram.GetFreeFp();
    if got != 0 { return false, head, tail; }
    assert was[..n] + [fpn] == was[..n + 1];
    head', tail' := AddFrame(head, tail, fpn, nodes, was[..n]);
    ok := true;
  }

  // -3000 if the free list runs dry; the frames taken until then are lost.
  method AllocPagesRange(mram: Device, reqPgnum: int)
    returns (code: int, list: FrameNode?, ghost nodes: seq<FrameNode>)
    requires mram.Valid()
    modifies mram`freeList, mram`nodes, mram`free
    ensures mram.Valid() && fresh(nodes)
    ensures reqPgnum < 0 ==> code == reqPgnum && list == null && mram.free == old(mram.free)
    ensures 0 <= reqPgnum <= |old(mram.free)| ==>
      code == reqPgnum && list == FirstOf(nodes, 0)
      && IsChain(nodes, old(mram.free)[..reqPgnum]) && mram.free == old(mram.free)[reqPgnum..]
    ensures reqPgnum > |old(mram.free)| ==> code == -3000 && mram.free == []
  {
    var head: FrameNode?, tail: FrameNode? := null, null;
    nodes := [];
    ghost var was, had := mram.free, mram.nodes;
    for pgit := 0 to if reqPgnum < 0 then 0 else reqPgnum
      invariant Taken(mram, was, had, pgit)
      invariant fresh(nodes) && Building(head, tail, nodes, was[..pgit])
    {
      assert tail == null || fresh(tail);
      assert tail !in mram.nodes;
      var ok;
      ok, head, tail := TakeFrame(mram, head, tail, nodes, was, had, pgit);
      if !ok { return -3000, null, []; }
      nodes := nodes + [tail];
    }
    return reqPgnum, head, nodes;
  }

  /* ---------- The process ---------- */

  // struct pgn_t
  class PageNode {
    const pgn: nat
    const next: PageNode?

    constructor (pgn: nat, next: PageNode?)
      ensures this.pgn == pgn && this.next == next
    {
      this.pgn := pgn;
      this.next := next;
    }
  }

  ghost predicate IsPageList(head: PageNode?, pgns: seq<nat>) {
    if pgns == [] then head == null
    else head != null && head.pgn == pgns[0] && IsPageList(head.next, pgns[1..])
  }

  // How many of the frames a range of pgnum pages takes.
  function Mapped(pgnum: int, fpns: seq<Word>): (n: nat)
    ensures n <= |fpns|
  {
    if pgnum < 0 then 0 else if pgnum < |fpns| then pgnum else |fpns|
  }

  // struct mm_struct
  class Mm {
    const pgd: array<Word>
    var mmap: A.Area?
    var fifo: PageNode?
    ghost var areas: seq<A.Area>
    ghost var fifoPages: seq<nat>

    ghost predicate Valid()
      reads this, areas
    {
      && pgd.Length == PAGING_MAX_PGN
      && A.AreaChain(areas) && mmap == A.FirstArea(areas, 0)
      && IsPageList(fifo, fifoPages)
    }

    // init_mm
    constructor ()
      ensures Valid() && fresh(pgd) && fresh(areas) && fifoPages == []
      ensures |areas| == 1 && areas[0].id == 0 && areas[0].vmEnd == 0
      ensures forall p :: 0 <= p < pgd.Length ==> pgd[p] == 0
    {
      pgd := new Word[PAGING_MAX_PGN](_ => 0);
      var vma0 := new A.Area(0, 0);
      mmap := vma0;
      areas := [vma0];
      fifo := null;
      fifoPages := [];
    }

    // The page table, entry by entry.
    ghost predicate Table(pages: seq<Option<Word>>)
      reads pgd
    {
      pgd.Length == |pages| && forall p :: 0 <= p < |pages| ==> Shows(pgd[p], pages[p])
    }

    // enlist_pgn_node
    method EnlistPgn(pgn: nat)
      requires Valid()
      modifies this`fifo, this`fifoPages
      ensures Valid() && fifoPages == [pgn] + old(fifoPages)
    {
      fifo := new PageNode(pgn, fifo);
      fifoPages := [pgn] + fifoPages;
    }

    method SetEntry(a: Word, fpn: Word, ghost pages: seq<Option<Word>>)
      requires pgd.Length == PAGING_MAX_PGN && Table(pages)
      modifies pgd
      ensures Table(pages[P.PageOf(a) := Some(fpn)])
    {
      var pgn, _ := SplitAddress(a);
      PteSet(pgd, pgn, fpn);
    }

    // The loop of vmap_page_range.
    method SetEntries(a: Word, pgnum: int, frames: FrameNode?, ghost nodes: seq<FrameNode>,
                      ghost fpns: seq<Word>, ghost pages: seq<Option<Word>>)
      requires pgd.Length == PAGING_MAX_PGN == |pages| && Table(pages)
      requires frames == FirstOf(nodes, 0) && IsChain(nodes, fpns)
      requires a + pgnum * PAGING_PAGESZ < WORD
      modifies pgd
      ensures Table(P.MapPages(pages, a, fpns, Mapped(pgnum, fpns)))
    {
      var frame := frames;
      var i := 0;
      while i < pgnum && frame != null
        invariant i <= Mapped(pgnum, fpns) && frame == FirstOf(nodes, i)
        invariant Table(P.MapPages(pages, a, fpns, i))
      {
        var fpn, next := frame.fpn, frame.next;
        assert fpn == fpns[i] && next == FirstOf(nodes, i + 1);
        SetEntry(a + i * PAGING_PAGESZ, fpn, P.MapPages(pages, a, fpns, i));
        frame := next;
        i := i + 1;
      }
    }

    // vmap_page_range
    method VmapPageRange(a: Word, pgnum: int, frames: FrameNode?, ret: A.RegionNode, ghost nodes: seq<FrameNode>,
                         ghost fpns: seq<Word>, ghost pages: seq<Option<Word>>)
      requires Valid() && |pages| == PAGING_MAX_PGN && Table(pages)
      requires frames == FirstOf(nodes, 0) && IsChain(nodes, fpns)
      requires 0 <= a + pgnum * PAGING_PAGESZ < WORD
      modifies this`fifo, this`fifoPages, pgd, ret
      ensures Valid() && fifoPages == [P.PageOf(a)] + old(fifoPages)
      ensures Table(P.MapPages(pages, a, fpns, Mapped(pgnum, fpns)))
      ensures ret.start == a && ret.end == a + pgnum * PAGING_PAGESZ && ret.next == old(ret.next)
    {
      var pgn, _ := SplitAddress(a);
      ret.start := a;
      ret.end := a + pgnum * PAGING_PAGESZ;
      SetEntries(a, pgnum, frames, nodes, fpns, pages);
      EnlistPgn(pgn);
    }
  }

  // The fields of struct pcb_t that the paging layer uses.
  class Pcb {
    var bp: Word
    const mm: Mm
    const mram: Device
    ghost var pages: seq<Option<Word>>

    ghost predicate Valid()
      reads this, mm, mm.areas, mm.pgd, mram, mram.nodes
    {
      mm.Valid() && |pages| == PAGING_MAX_PGN && mm.Table(pages) && mram.Valid() && mram.rdmflg
    }

    // The only memory area, as init_mm makes it.
    ghost predicate OneArea()
      reads mm
    {
      |mm.areas| == 1 && mm.areas[0].id == 0
    }

    ghost function Vma0(): A.Area
      requires OneArea()
      reads mm
    {
      mm.areas[0]
    }

    // What this process amounts to.
    ghost function Space(): P.Space
      requires OneArea()
      reads this, mm, mm.areas
    {
      P.Space(bp, mm.areas[0].vmEnd, pages, mm.fifoPages)
    }

    // This process and its RAM device, as s has them.
    ghost predicate ShownBy(s: P.State, pid: nat)
      requires OneArea()
      reads this, mm, mm.areas, mram, mram.storage
    {
      pid in s.procs && s.procs[pid] == Space() && s.free == mram.free && s.ram == mram.storage[..]
    }

    // load and init_mm
    constructor (mram: Device)
      requires mram.Valid() && mram.rdmflg
      ensures Valid() && OneArea() && this.mram == mram && fresh(mm) && fresh(mm.pgd) && fresh(mm.areas)
      ensures Space() == P.NewSpace()
    {
      bp := 1024;
      mm := new Mm();
      this.mram := mram;
      pages := P.NewSpace().pages;
      new;
      ZeroShowsNone();
    }

    // get_vm_area_node_at_brk
    method GetVmAreaNodeAtBrk(alignedsz: int) returns (area: A.RegionNode)
      modifies this`bp
      ensures fresh(area) && area.next == null
      ensures area.start == old(bp) && area.end == bp == (old(bp) + alignedsz) % WORD
    {
      area := new A.RegionNode(A.Regions.Region(bp, (bp + alignedsz) % WORD));
      bp := (bp + alignedsz) % WORD;
    }

    // validate_overlap_vm_area; the int start becomes unsigned in the comparison.
    method ValidateOverlap(vmaid: int, start: int) returns (code: int)
      requires mm.Valid()
      ensures var k := A.FindArea(mm.areas, vmaid, 0);
        code == if k == |mm.areas| || A.Regions.Wrap(start) < mm.areas[k].vmEnd then -1 else 0
    {
      var vma := A.GetVmaByNum(mm.mmap, vmaid, mm.areas);
      if vma == null { return -1; }
      if A.Regions.Wrap(start) < vma.vmEnd { return -1; }
      return 0;
    }

    // vm_map_ram once it has its frames.
    method MapList(mapstart: Word, pgnum: nat, list: FrameNode?, ret: A.RegionNode, ghost nodes: seq<FrameNode>,
                   ghost free: seq<Word>)
      requires mm.Valid() && |pages| == PAGING_MAX_PGN && mm.Table(pages) && pgnum <= |free|
      requires list == FirstOf(nodes, 0) && IsChain(nodes, free[..pgnum])
      requires mapstart + pgnum * PAGING_PAGESZ < WORD
      modifies this`pages, mm`fifo, mm`fifoPages, mm.pgd, ret
      ensures mm.Valid() && |pages| == PAGING_MAX_PGN && mm.Table(pages)
      ensures pages == P.MapPages(old(pages), mapstart, free, pgnum)
      ensures mm.fifoPages == [P.PageOf(mapstart)] + old(mm.fifoPages)
    {
      mm.VmapPageRange(mapstart, pgnum, list, ret, nodes, free[..pgnum], pages);
      P.MapPagesPrefix(pages, mapstart, free, pgnum, pgnum);
      pages := P.MapPages(pages, mapstart, free, pgnum);
    }

    // vm_map_ram
    method VmMapRam(mapstart: Word, incpgnum: int, ret: A.RegionNode) returns (code: int)
      requires Valid() && (0 <= incpgnum <= |mram.free| ==> mapstart + incpgnum * PAGING_PAGESZ < WORD)
      modifies this`pages, mram`freeList, mram`nodes, mram`free, mm`fifo, mm`fifoPages, mm.pgd, ret
      ensures Valid()
      ensures 0 <= incpgnum <= |old(mram.free)| ==>
        code == 0 && mram.free == old(mram.free)[incpgnum..]
        && pages == P.MapPages(old(pages), mapstart, old(mram.free), incpgnum)
        && mm.fifoPages == [P.PageOf(mapstart)] + old(mm.fifoPages)
      ensures incpgnum < 0 || incpgnum > |old(mram.free)| ==>
        code == -1 && pages == old(pages) && mm.fifoPages == old(mm.fifoPages)
        && mram.free == if incpgnum < 0 then old(mram.free) else []
    {
      ghost var free := mram.free;
      var alloc, list, nodes := AllocPagesRange(mram, incpgnum);
      if alloc < 0 && alloc != -3000 { return -1; }
      if alloc == -3000 { return -1; }
      MapList(mapstart, incpgnum, list, ret, nodes, free);
      return 0;
    }

    // The last two steps of inc_vma_limit: the area's end moves, then the pages from
    // its old end on are mapped.
    method Extend(vma: A.Area, end: Word, incpgnum: int, newrg: A.RegionNode) returns (code: int)
      requires Valid() && OneArea() && vma == Vma0()
      requires vma.vmEnd < WORD && (0 <= incpgnum <= |mram.free| ==> vma.vmEnd + incpgnum * PAGING_PAGESZ < WORD)
      modifies this`pages, vma`vmEnd, mram`freeList, mram`nodes, mram`free, mm`fifo, mm`fifoPages, mm.pgd, newrg
      ensures Valid() && OneArea()
      ensures 0 <= incpgnum <= |old(mram.free)| ==>
        code == 0 && mram.free == old(mram.free)[incpgnum..]
        && Space() == P.Space(bp, end, P.MapPages(old(pages), old(vma.vmEnd), old(mram.free), incpgnum),
                              [P.PageOf(old(vma.vmEnd))] + old(mm.fifoPages))
      ensures incpgnum < 0 || incpgnum > |old(mram.free)| ==>
        code == -1 && Space() == old(Space()).(vmEnd := end)
        && mram.free == if incpgnum < 0 then old(mram.free) else []
    {
      var oldEnd := vma.vmEnd;
      vma.vmEnd := end;
      code := VmMapRam(oldEnd, incpgnum, newrg);
    }

    // The area to grow, if there is one and a region from start on does not overlap it.
    method Growable(vmaid: int, start: int) returns (vma: A.Area?)
      requires mm.Valid() && OneArea() && start >= 0 && start < P.INT_LIMIT
      ensures vma == if vmaid > 0 || start < Vma0().vmEnd then null else Vma0()
    {
      vma := A.GetVmaByNum(mm.mmap, vmaid, mm.areas);
      if vma == null { return null; }
      var overlap := ValidateOverlap(vmaid, start);
      if overlap < 0 { return null; }
    }

    // inc_vma_limit once the sizes are known.
    method GrowBy(vmaid: int, incAmt: int, incNumPage: int, newrg: A.RegionNode) returns (code: int)
      requires Valid() && OneArea() && incAmt == incNumPage * PAGING_PAGESZ
      requires 0 <= bp + incAmt < P.INT_LIMIT && mm.areas[0].vmEnd < P.INT_LIMIT && bp < P.INT_LIMIT
      modifies this, Vma0()`vmEnd, mram`freeList, mram`nodes, mram`free, mm`fifo, mm`fifoPages, mm.pgd, newrg
      ensures Valid() && OneArea()
      ensures (code, mram.free, Space()) == P.GrownBy(old(mram.free), old(Space()), vmaid, incNumPage)
    {
      var area := GetVmAreaNodeAtBrk(incAmt);
      var vma := Growable(vmaid, area.start);
      if vma == null { return -1; }
      code := Extend(vma, area.end, incNumPage, newrg);
    }

    // inc_vma_limit, for any number of pages.
    method IncVmaLimit(vmaid: int, size: int) returns (code: int)
      requires Valid() && OneArea() && P.NoOverflow(Space(), size)
      requires mm.areas[0].vmEnd < P.INT_LIMIT && bp < P.INT_LIMIT
      modifies this, Vma0()`vmEnd, mram`freeList, mram`nodes, mram`free, mm`fifo, mm`fifoPages, mm.pgd
      ensures Valid() && OneArea()
      ensures (code, mram.free, Space()) == P.Grown(old(mram.free), old(Space()), vmaid, size)
    {
      var newrg := new A.RegionNode(A.Regions.Region(0, 0));
      var incAmt := P.AlignSz(size);
      var incNumPage := P.Quotient(incAmt, PAGING_PAGESZ);
      P.AlignMeaning(size);
      code := GrowBy(vmaid, incAmt, incNumPage, newrg);
    }

    // The resident path of pg_getpage.
    method PgGetPage(pgn: nat) returns (fpn: nat)
      requires Valid() && pgn < PAGING_MAX_PGN && pages[pgn].Some?
      ensures fpn == pages[pgn].value % 8192
    {
      assert Shows(mm.pgd[pgn], pages[pgn]);
      fpn := Fpn(mm.pgd[pgn]);
    }

    // pg_getval on a resident page
    method PgGetVal(a: Word, ghost s: P.State, ghost pid: nat) returns (code: int, data: Byte)
      requires Valid() && OneArea() && ShownBy(s, pid) && P.Inv(s) && P.Valid(s, P.Get(pid, a))
      ensures P.Shape(s) && code == 0 && P.Apply(s, P.Get(pid, a)) == (s, P.Value(data))
    {
      P.Access(s, pid, a, 0);
      var pgn, off := SplitAddress(a);
      var fpn := PgGetPage(pgn);
      code, data := mram.Read(fpn * PAGING_PAGESZ + off);
    }

    // pg_setval on a resident page
    method PgSetVal(a: Word, value: Byte, ghost s: P.State, ghost pid: nat) returns (code: int)
      requires Valid() && OneArea() && ShownBy(s, pid) && P.Inv(s) && P.Valid(s, P.Set(pid, a, value))
      modifies mram.storage
      ensures Valid() && P.Shape(s) && code == 0
      ensures P.Apply(s, P.Set(pid, a, value)).1 == P.Status(code)
      ensures ShownBy(P.Apply(s, P.Set(pid, a, value)).0, pid)
    {
      P.Access(s, pid, a, value);
      var pgn, off := SplitAddress(a);
      var fpn := PgGetPage(pgn);
      code := mram.Write(fpn * PAGING_PAGESZ + off, value);
    }
  }
}

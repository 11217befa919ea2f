/** src/mem.c: the page tables, the frame table and the RAM that its functions
    update in place, each function proved to do what the value model does. */
module Mem {
  import opened Options
  import opened Bits
  import opened TwoLevel
  import M = MemSpec

  // struct trans_table_t
  class TransTable {
    const table: array<Row>
    var size: nat

    constructor ()
      ensures size == 0 && fresh(table) && table.Length == LEVEL_SIZE
    {
      table := new Row[LEVEL_SIZE](_ => Row(0, 0));
      size := 0;
    }

    ghost predicate Holds(rows: seq<Row>)
      reads this, table
    {
      table.Length == LEVEL_SIZE && size == |rows| <= LEVEL_SIZE && table[..size] == rows
    }

    method Find(v: int) returns (i: nat)
      requires size <= table.Length
      ensures i == FindRow(table[..size], v, 0)
    {
      i := 0;
      while i < size
        invariant i <= size
        invariant FindRow(table[..size], v, 0) == FindRow(table[..size], v, i)
      {
        if table[i].v == v { return; }
        i := i + 1;
      }
    }

    method Append(row: Row)
      requires size < LEVEL_SIZE == table.Length
      modifies this, table
      ensures size == old(size) + 1 && table[..size] == old(table[..size]) + [row]
    {
      table[size] := row;
      size := size + 1;
    }
  }

  datatype Entry = Entry(vIndex: int, nextLv: TransTable?)

  // struct page_table_t; dir is the value it stands for.
  class PageTable {
    const table: array<Entry>
    var size: nat
    ghost var tables: seq<TransTable>
    ghost var dir: Dir
    ghost var Repr: set<object>

    // The second-level tables are distinct, and none of them is shared.
    ghost predicate Owns(t: TransTable)
      reads this
    {
      t in Repr && t.table in Repr && t.table as object != table && (t as object) != this
    }

    ghost predicate Valid()
      reads this, Repr
    {
      && this in Repr && table in Repr && table.Length == LEVEL_SIZE
      && size == |dir| == |tables| <= LEVEL_SIZE
      && (forall i :: 0 <= i < size ==> Owns(tables[i]) && table[i] == Entry(dir[i].v, tables[i]))
      && (forall i :: 0 <= i < size ==> tables[i].Holds(dir[i].rows))
      && (forall i, j :: 0 <= i < j < size ==> tables[i] != tables[j] && tables[i].table != tables[j].table)
    }

    constructor ()
      ensures Valid() && dir == [] && fresh(Repr)
    {
      table := new Entry[LEVEL_SIZE](_ => Entry(0, null));
      size := 0;
      tables := [];
      dir := [];
      new;
      Repr := {this, table};
    }

    method GetTransTable(index: int) returns (t: TransTable?)
      requires Valid()
      ensures var i := FindSeg(dir, index, 0);
        i <= |dir| && t == if i == |dir| then null else tables[i]
    {
      var i := 0;
      while i < size
        invariant i <= size && FindSeg(dir, index, 0) == FindSeg(dir, index, i)
      {
        if table[i].vIndex == index { return table[i].nextLv; }
        i := i + 1;
      }
      return null;
    }

    method NewSegment(v: int) returns (trans: TransTable)
      requires Valid() && |dir| < LEVEL_SIZE
      modifies this, table
      ensures Valid() && fresh(Repr - old(Repr)) && old(Repr) <= Repr
      ensures dir == old(dir) + [Seg(v, [])] && tables == old(tables) + [trans]
    {
      trans := new TransTable();
      table[size] := Entry(v, trans);
      size := size + 1;
      tables := tables + [trans];
      dir := dir + [Seg(v, [])];
      Repr := Repr + {trans, trans.table};
    }

    method AppendRow(ghost i: nat, trans: TransTable, row: Row)
      requires Valid() && i < |dir| && trans == tables[i] && |dir[i].rows| < LEVEL_SIZE
      modifies this`dir, trans, trans.table
      ensures Valid()
      ensures dir == old(dir[i := Seg(dir[i].v, dir[i].rows + [row])])
    {
      trans.Append(row);
      dir := dir[i := Seg(dir[i].v, dir[i].rows + [row])];
    }

    method AddPageMapping(a: Word, frame: Word)
      requires Valid() && HasRoom(dir, a)
      modifies Repr
      ensures Valid() && fresh(Repr - old(Repr))
      ensures dir == AddMapping(old(dir), a, frame)
    {
      var trans: TransTable? := null;
      FindSegBounded(dir, GetFirstLv(a), 0);
      ghost var at := FindSeg(dir, GetFirstLv(a), 0);
      var i, found := 0, false;
      while i < size
        invariant i <= size && !found && FindSeg(dir, GetFirstLv(a), 0) == FindSeg(dir, GetFirstLv(a), i)
      {
        if table[i].vIndex == GetFirstLv(a) {
          trans := table[i].nextLv;
          found := true;
          break;
        }
        i := i + 1;
      }
      if !found { trans := NewSegment(GetFirstLv(a)); }
      assert [] + [Row(GetSecondLv(a), frame)] == [Row(GetSecondLv(a), frame)];
      assert Owns(tables[at]);
      AppendRow(at, trans, Row(GetSecondLv(a), frame));
    }
  }

  // The fields of struct pcb_t that src/mem.c uses.
  class Proc {
    const pid: nat
    var bp: Word
    const pageTable: PageTable
    ghost var frames: seq<Word>  // of the pages 1, 2, ...

    ghost function Repr(): set<object>
      reads this, pageTable
    {
      {this} + pageTable.Repr
    }

    // The page table stands for frames.
    ghost predicate Mapped()
      reads this, pageTable, pageTable.Repr
    {
      this !in pageTable.Repr && pageTable.Valid() && Represents(pageTable.dir, frames)
    }

    ghost predicate Valid()
      reads this, pageTable, pageTable.Repr
    {
      && Mapped()
      && pid != 0
      && |frames| < NUM_PAGES && bp == M.Bp(frames)
      && (forall k :: 0 <= k < |frames| ==> frames[k] < NUM_PAGES)
    }

    constructor (pid: nat)
      requires pid != 0
      ensures Valid() && this.pid == pid && frames == [] && fresh(Repr())
    {
      this.pid := pid;
      bp := PAGE_SIZE;
      pageTable := new PageTable();
      frames := [];
    }

    method Translate(a: Word) returns (found: bool, physical: Word)
      requires Valid()
      ensures (if found then Some(physical) else None) == TwoLevel.Translate(pageTable.dir, a)
      ensures (if found then Some(physical) else None) == M.Physical(frames, a)
      ensures found ==> physical < RAM_SIZE
    {
      found, physical := false, 0;
      TranslateMeaning(pageTable.dir, frames, a);
      FindSegBounded(pageTable.dir, GetFirstLv(a), 0);
      var trans := pageTable.GetTransTable(GetFirstLv(a));
      if trans != null {
        FindRowBounded(trans.table[..trans.size], GetSecondLv(a), 0);
        var j := trans.Find(GetSecondLv(a));
        if j < trans.size { return true, Join(trans.table[j].p, GetOffset(a)); }
      }
    }

    // Mapping the next page of the process.
    method MapNext(a: Word, frame: Word)
      requires Mapped() && |frames| + 1 < NUM_PAGES && a == (|frames| + 1) * PAGE_SIZE
      modifies this`frames, pageTable.Repr
      ensures Mapped() && fresh(pageTable.Repr - old(pageTable.Repr))
      ensures frames == old(frames) + [frame]
    {
      AddRepresents(pageTable.dir, frames, frame);
      pageTable.AddPageMapping(a, frame);
      frames := frames + [frame];
    }
  }

  // The invariant of the allocation loop at frame i, with n frames taken so far:
  // the frame table is the one of the model, and the untaken free frames lie ahead.
  ghost predicate Taking(stat: seq<M.Frame>, was: seq<M.Frame>, i: nat, n: nat, pid: nat) {
    && |stat| == |was| == NUM_PAGES && i <= NUM_PAGES && pid != 0
    && n <= |M.FreeFrames(was, 0)|
    && (forall k :: 0 <= k < |M.FreeFrames(was, 0)| ==> M.FreeFrames(was, 0)[k] < NUM_PAGES)
    && stat == M.Claimed(was, M.FreeFrames(was, 0), n, pid)
    && M.FreeFrames(was, i) == M.FreeFrames(was, 0)[n..]
    && (forall k :: 0 <= k < n ==> M.FreeFrames(was, 0)[k] < i)
  }

  lemma TakingStarts(was: seq<M.Frame>, pid: nat)
    requires |was| == NUM_PAGES && pid != 0
    ensures Taking(was, was, 0, 0, pid)
  {
    M.FreeInRange(was);
  }

  lemma TakingAhead(stat: seq<M.Frame>, was: seq<M.Frame>, i: nat, n: nat, pid: nat)
    requires Taking(stat, was, i, n, pid) && i < NUM_PAGES
    ensures stat[i] == was[i]
    ensures was[i].proc != 0 ==> Taking(stat, was, i + 1, n, pid)
    ensures was[i].proc == 0 ==> n < |M.FreeFrames(was, 0)| && M.FreeFrames(was, 0)[n] == i
  {
    M.ClaimedElsewhere(was, M.FreeFrames(was, 0), n, pid, i);
  }

  // The writes of one iteration that finds a free frame.
  function TakeFrame(stat: seq<M.Frame>, i: nat, index: nat, prev: int, pid: nat): (r: seq<M.Frame>)
    requires i < |stat| && -1 <= prev < |stat|
  {
    var taken := stat[i := M.Frame(pid, index, -1)];
    if prev == -1 then taken else taken[prev := taken[prev].(next := i)]
  }

  lemma TakingStep(stat: seq<M.Frame>, was: seq<M.Frame>, i: nat, n: nat, pid: nat, prev: int)
    requires Taking(stat, was, i, n, pid) && i < NUM_PAGES && was[i].proc == 0
    requires prev == if n == 0 then -1 else M.FreeFrames(was, 0)[n - 1]
    ensures Taking(TakeFrame(stat, i, n, prev, pid), was, i + 1, n + 1, pid)
    ensures n < |M.FreeFrames(was, 0)| && M.FreeFrames(was, 0)[n] == i
  {
    TakingAhead(stat, was, i, n, pid);
    var free := M.FreeFrames(was, 0);
    assert free[n..] == [i] + free[n + 1..];
  }

  // The frame taken before the nth.
  function Previous(free: seq<Word>, n: nat): int
    requires n <= |free|
  {
    if n == 0 then -1 else free[n - 1]
  }

  lemma SnocPrefix(had: seq<Word>, free: seq<Word>, n: nat)
    requires n < |free|
    ensures had + free[..n + 1] == had + free[..n] + [free[n]]
  {
  }

  // The globals of src/mem.c.
  class Memory {
    const ram: array<Byte>
    const stat: array<M.Frame>

    ghost predicate Valid() {
      ram.Length == RAM_SIZE && stat.Length == NUM_PAGES
    }

    // This memory and this process, as s has them.
    ghost predicate Shows(s: M.State, proc: Proc)
      reads ram, stat, proc
    {
      s.ram == ram[..] && s.stat == stat[..] && proc.pid in s.procs && s.procs[proc.pid] == proc.frames
    }

    // init_mem
    constructor ()
      ensures Valid() && fresh(ram) && fresh(stat)
      ensures ram[..] == M.INITIAL.ram && stat[..] == M.INITIAL.stat
    {
      ram := new Byte[RAM_SIZE](_ => 0);
      stat := new M.Frame[NUM_PAGES](_ => M.Frame(0, 0, 0));
    }

    method CountFree() returns (count: nat)
      requires Valid()
      ensures count == |M.FreeFrames(stat[..], 0)|
    {
      count := 0;
      for i := 0 to NUM_PAGES
        invariant count + |M.FreeFrames(stat[..], i)| == |M.FreeFrames(stat[..], 0)|
      {
        if stat[i].proc == 0 { count := count + 1; }
      }
    }

    method Take(i: nat, index: nat, prev: int, pid: nat)
      requires Valid() && i < NUM_PAGES && -1 <= prev < NUM_PAGES
      modifies stat
      ensures stat[..] == TakeFrame(old(stat[..]), i, index, prev, pid)
    {
      stat[i] := M.Frame(pid, index, -1);
      if prev != -1 { stat[prev] := stat[prev].(next := i); }
    }

    // The allocation loop of alloc_mem at frame i, with n frames taken so far, for
    // a process that had the frames `had` before.
    ghost predicate Looping(proc: Proc, was: seq<M.Frame>, had: seq<Word>, i: nat, n: nat, prev: int)
      reads stat, proc, proc.pageTable, proc.pageTable.Repr
    {
      && proc.Mapped()
      && Taking(stat[..], was, i, n, proc.pid)
      && prev == Previous(M.FreeFrames(was, 0), n)
      && proc.frames == had + M.FreeFrames(was, 0)[..n]
    }

    method TakeAndMap(i: nat, n: nat, prev: int, proc: Proc, start: Word, ghost was: seq<M.Frame>, ghost had: seq<Word>)
      requires Valid() && stat !in proc.Repr() && i < NUM_PAGES
      requires Looping(proc, was, had, i, n, prev) && was[i].proc == 0
      requires |had| + n + 1 < NUM_PAGES && start == (|had| + 1) * PAGE_SIZE
      modifies stat, proc`frames, proc.pageTable.Repr
      ensures Looping(proc, was, had, i + 1, n + 1, i)
      ensures fresh(proc.pageTable.Repr - old(proc.pageTable.Repr))
    {
      TakingStep(stat[..], was, i, n, proc.pid, prev);
      SnocPrefix(had, M.FreeFrames(was, 0), n);
      Take(i, n, prev, proc.pid);
      proc.MapNext(start + n * PAGE_SIZE, i);
    }

    // The body of the loop.
    method Visit(i: nat, n: nat, prev: int, proc: Proc, start: Word, ghost was: seq<M.Frame>, ghost had: seq<Word>)
      returns (n': nat, prev': int)
      requires Valid() && stat !in proc.Repr() && i < NUM_PAGES
      requires Looping(proc, was, had, i, n, prev)
      requires |had| + n + 1 < NUM_PAGES && start == (|had| + 1) * PAGE_SIZE
      modifies stat, proc`frames, proc.pageTable.Repr
      ensures n <= n' <= n + 1 && Looping(proc, was, had, i + 1, n', prev')
      ensures fresh(proc.pageTable.Repr - old(proc.pageTable.Repr))
    {
      TakingAhead(stat[..], was, i, n, proc.pid);
      if stat[i].proc == 0 {
        TakeAndMap(i, n, prev, proc, start, was, had);
        n', prev' := n + 1, i;
      } else {
        n', prev' := n, prev;
      }
    }

    // The process got the first n free frames.
    ghost predicate Granted(proc: Proc, was: seq<M.Frame>, had: seq<Word>, n: nat)
      reads stat, proc
    {
      && |was| == NUM_PAGES && n <= |M.FreeFrames(was, 0)|
      && (forall k :: 0 <= k < |M.FreeFrames(was, 0)| ==> M.FreeFrames(was, 0)[k] < NUM_PAGES)
      && stat[..] == M.Claimed(was, M.FreeFrames(was, 0), n, proc.pid)
      && proc.frames == had + M.FreeFrames(was, 0)[..n]
    }

    lemma LoopEnds(proc: Proc, was: seq<M.Frame>, had: seq<Word>, i: nat, n: nat, prev: int, pages: nat)
      requires Looping(proc, was, had, i, n, prev)
      requires n <= pages <= |M.FreeFrames(was, 0)| && (i >= NUM_PAGES || n == pages)
      ensures n == pages && Granted(proc, was, had, pages) && proc.Mapped()
    {
      assert |M.FreeFrames(was, i)| == |M.FreeFrames(was, 0)| - n;
    }

    lemma LoopStarts(proc: Proc)
      requires Valid() && proc.Mapped() && proc.pid != 0
      ensures Looping(proc, stat[..], proc.frames, 0, 0, -1)
    {
      TakingStarts(stat[..], proc.pid);
    }

    method MapFrames(n: nat, proc: Proc, start: Word)
      requires Valid() && proc.Mapped() && stat !in proc.Repr()
      requires proc.pid != 0 && n <= |M.FreeFrames(stat[..], 0)|
      requires |proc.frames| + n < NUM_PAGES && start == (|proc.frames| + 1) * PAGE_SIZE
      modifies stat, proc`frames, proc.pageTable.Repr
      ensures fresh(proc.pageTable.Repr - old(proc.pageTable.Repr)) && proc.Mapped()
      ensures Granted(proc, old(stat[..]), old(proc.frames), n)
    {
      ghost var was, had := stat[..], proc.frames;
      LoopStarts(proc);
      var taken, prev, i := 0, -1, 0;
      while i < NUM_PAGES && taken < n
        invariant taken <= n && 0 <= i && Looping(proc, was, had, i, taken, prev)
        invariant stat !in proc.Repr()
        invariant fresh(proc.pageTable.Repr - old(proc.pageTable.Repr))
      {
        taken, prev := Visit(i, taken, prev, proc, start, was, had);
        i := i + 1;
      }
      LoopEnds(proc, was, had, i, taken, prev, n);
    }

    // alloc_mem once its checks have passed.
    method Grant(n: nat, proc: Proc) returns (address: Word)
      requires Valid() && proc.Valid() && stat !in proc.Repr()
      requires proc.bp + n * PAGE_SIZE <= RAM_SIZE && n <= |M.FreeFrames(stat[..], 0)|
      modifies stat, proc.Repr()
      ensures proc.Valid() && fresh(proc.Repr() - old(proc.Repr()))
      ensures address == M.Bp(old(proc.frames)) && Granted(proc, old(stat[..]), old(proc.frames), n)
    {
      address := proc.bp;
      proc.bp := (proc.bp + (n * PAGE_SIZE) % WORD) % WORD;
      MapFrames(n, proc, address);
    }

    method AllocMem(size: Word, proc: Proc, ghost s: M.State) returns (address: Word)
      requires Valid() && proc.Valid() && stat !in proc.Repr() && ram !in proc.Repr() && Shows(s, proc)
      modifies stat, proc.Repr()
      ensures proc.Valid() && fresh(proc.Repr() - old(proc.Repr()))
      ensures M.Apply(s, M.Alloc(proc.pid, size)).1 == M.Address(address)
      ensures Shows(M.Apply(s, M.Alloc(proc.pid, size)).0, proc)
    {
      var n := M.NumPages(size);
      var free := CountFree();
      M.FreeFramesMeaning(stat[..], 0);
      M.AcceptsIsExact(proc.bp, n, free);
      if M.Accepts(proc.bp, n, free) {
        address := Grant(n, proc);
      } else {
        address := 0;
      }
    }

    method ReadMem(a: Word, proc: Proc, ghost s: M.State) returns (code: int, data: Byte)
      requires Valid() && proc.Valid() && Shows(s, proc)
      ensures M.Apply(s, M.Read(proc.pid, a)) == (s, M.Data(if code == 0 then Some(data) else None))
      ensures code == 0 || code == 1
    {
      var found, physical := proc.Translate(a);
      if found { return 0, ram[physical]; } else { return 1, 0; }
    }

    method WriteMem(a: Word, proc: Proc, data: Byte, ghost s: M.State) returns (code: int)
      requires Valid() && proc.Valid() && ram !in proc.Repr() && Shows(s, proc)
      modifies ram
      ensures proc.Valid()
      ensures M.Apply(s, M.Write(proc.pid, a, data)).1 == M.Status(code)
      ensures Shows(M.Apply(s, M.Write(proc.pid, a, data)).0, proc)
    {
      var found, physical := proc.Translate(a);
      if found {
        ram[physical] := data;
        return 0;
      } else {
        return 1;
      }
    }
  }
}

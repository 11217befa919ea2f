/** The memory of src/mem.c for any number of processes, as a value: the frame
    table, the RAM, and the frames of each process's pages. */
module MemSpec {
  import opened Options
  import opened Bits
  import opened TwoLevel

  // One entry of _mem_stat.
  datatype Frame = Frame(proc: nat, index: int, next: int)

  /* ---------- alloc_mem ---------- */

  function NumPages(size: Word): Word {
    if size % PAGE_SIZE != 0 then size / PAGE_SIZE + 1 else size / PAGE_SIZE
  }

  // The check of alloc_mem, in unsigned 32-bit arithmetic.
  predicate Accepts(bp: Word, pages: Word, free: nat) {
    !((bp + (pages * PAGE_SIZE) % WORD) % WORD > RAM_SIZE || free < pages)
  }

  // The two conditions together leave no room for wrap-around: they say exactly
  // that the region ends within RAM_SIZE and that there are enough free frames.
  lemma AcceptsIsExact(bp: Word, pages: Word, free: nat)
    requires bp <= RAM_SIZE && free <= NUM_PAGES
    ensures Accepts(bp, pages, free) <==> bp + pages * PAGE_SIZE <= RAM_SIZE && pages <= free
  {
  }

  // The first condition.
  predicate FirstAccepts(bp: Word, pages: Word) { (bp + (pages * PAGE_SIZE) % WORD) % WORD <= RAM_SIZE }

  // Alone it is exact if and only if the region does not pass the end of the word.
  lemma FirstCheckExactIff(bp: Word, size: Word)
    requires bp <= RAM_SIZE
    ensures var end := bp + NumPages(size) * PAGE_SIZE;
      (FirstAccepts(bp, NumPages(size)) <==> end <= RAM_SIZE) <==> end < WORD
  {
  }

  // For example, 2^32 - 1 bytes need 2^22 pages, and their product wraps to 0.
  lemma FirstCheckAloneWraps()
    ensures NumPages(0xFFFFFFFF) == 0x400000
    ensures FirstAccepts(PAGE_SIZE, NumPages(0xFFFFFFFF))
  {
  }

  // The free frames from i on, in ascending order.
  function FreeFrames(stat: seq<Frame>, i: nat): seq<Word>
    requires i <= |stat| <= NUM_PAGES
    decreases |stat| - i
  {
    if i == |stat| then []
    else (if stat[i].proc == 0 then [i] else []) + FreeFrames(stat, i + 1)
  }

  // _mem_stat after the first n frames of the list have been given to pid.
  function Claimed(stat: seq<Frame>, frames: seq<Word>, n: nat, pid: nat): (r: seq<Frame>)
    requires n <= |frames| && forall k :: 0 <= k < |frames| ==> frames[k] < |stat|
    ensures |r| == |stat|
  {
    if n == 0 then stat
    else
      var before := Claimed(stat, frames, n - 1, pid);
      var taken := before[frames[n - 1] := Frame(pid, n - 1, -1)];
      if n == 1 then taken
      else taken[frames[n - 2] := taken[frames[n - 2]].(next := frames[n - 1])]
  }

  ghost predicate Ascending(frames: seq<Word>) {
    forall i, j :: 0 <= i < j < |frames| ==> frames[i] < frames[j]
  }

  // The frames of one allocation: numbered from 0 and linked in ascending order,
  // the last one ending in -1.
  ghost predicate Chain(stat: seq<Frame>, frames: seq<Word>, pid: nat) {
    && Ascending(frames)
    && forall k :: 0 <= k < |frames| ==>
         frames[k] < |stat| && stat[frames[k]] == Frame(pid, k, NextOf(frames, k))
  }

  function NextOf(frames: seq<Word>, k: nat): int {
    if k + 1 < |frames| then frames[k + 1] else -1
  }

  lemma AscendingCons(f: Word, frames: seq<Word>)
    requires Ascending(frames) && forall g :: g in frames ==> f < g
    ensures Ascending([f] + frames)
  {
    assert forall k :: 0 <= k < |frames| ==> frames[k] in frames;
  }

  lemma {:induction false} FreeMember(stat: seq<Frame>, i: nat, f: nat)
    requires i <= |stat| <= NUM_PAGES
    ensures f in FreeFrames(stat, i) <==> i <= f < |stat| && stat[f].proc == 0
    decreases |stat| - i
  {
    if i < |stat| { FreeMember(stat, i + 1, f); }
  }

  lemma {:induction false} FreeAscending(stat: seq<Frame>, i: nat)
    requires i <= |stat| <= NUM_PAGES
    ensures Ascending(FreeFrames(stat, i)) && |FreeFrames(stat, i)| <= |stat| - i
    decreases |stat| - i
  {
    if i < |stat| {
      var rest := FreeFrames(stat, i + 1);
      FreeAscending(stat, i + 1);
      forall f | f in rest ensures i < f { FreeMember(stat, i + 1, f); }
      if stat[i].proc == 0 { AscendingCons(i, rest); } else { assert FreeFrames(stat, i) == rest; }
    }
  }

  lemma FreeFramesMeaning(stat: seq<Frame>, i: nat)
    requires i <= |stat| <= NUM_PAGES
    ensures Ascending(FreeFrames(stat, i))
    ensures forall f :: f in FreeFrames(stat, i) <==> i <= f < |stat| && stat[f].proc == 0
    ensures |FreeFrames(stat, i)| <= |stat| - i
  {
    FreeAscending(stat, i);
    forall f: Word ensures f in FreeFrames(stat, i) <==> i <= f < |stat| && stat[f].proc == 0 {
      FreeMember(stat, i, f);
    }
  }

  lemma {:induction false} ClaimedAt(stat: seq<Frame>, frames: seq<Word>, n: nat, pid: nat, k: nat)
    requires k < n <= |frames| && Ascending(frames) && forall i :: 0 <= i < |frames| ==> frames[i] < |stat|
    ensures Claimed(stat, frames, n, pid)[frames[k]] == Frame(pid, k, if k + 1 < n then frames[k + 1] else -1)
  {
    if k < n - 1 { ClaimedAt(stat, frames, n - 1, pid, k); }
  }

  lemma {:induction false} ClaimedElsewhere(stat: seq<Frame>, frames: seq<Word>, n: nat, pid: nat, f: nat)
    requires n <= |frames| && f < |stat| && forall i :: 0 <= i < |frames| ==> frames[i] < |stat|
    requires forall i :: 0 <= i < n ==> frames[i] != f
    ensures Claimed(stat, frames, n, pid)[f] == stat[f]
  {
    if n > 0 { ClaimedElsewhere(stat, frames, n - 1, pid, f); }
  }

  lemma ClaimedMeaning(stat: seq<Frame>, frames: seq<Word>, n: nat, pid: nat)
    requires n <= |frames| && Ascending(frames) && forall k :: 0 <= k < |frames| ==> frames[k] < |stat|
    ensures Chain(Claimed(stat, frames, n, pid), frames[..n], pid)
    ensures forall f :: 0 <= f < |stat| && f !in frames[..n] ==> Claimed(stat, frames, n, pid)[f] == stat[f]
  {
    var after, taken := Claimed(stat, frames, n, pid), frames[..n];
    forall k | 0 <= k < n ensures after[taken[k]] == Frame(pid, k, NextOf(taken, k)) {
      ClaimedAt(stat, frames, n, pid, k);
    }
    forall f | 0 <= f < |stat| && f !in taken ensures after[f] == stat[f] {
      assert forall i :: 0 <= i < n ==> taken[i] == frames[i];
      ClaimedElsewhere(stat, frames, n, pid, f);
    }
  }

  lemma {:induction false} FreeFramesSame(stat: seq<Frame>, stat': seq<Frame>, i: nat)
    requires i <= |stat| == |stat'| <= NUM_PAGES
    requires forall f :: i <= f < |stat| ==> (stat[f].proc == 0 <==> stat'[f].proc == 0)
    ensures FreeFrames(stat, i) == FreeFrames(stat', i)
    decreases |stat| - i
  {
    if i < |stat| { FreeFramesSame(stat, stat', i + 1); }
  }

  // Taking the first n free frames leaves the others free.
  lemma {:induction false} FreeAfterClaim(stat: seq<Frame>, stat': seq<Frame>, i: nat, n: nat)
    requires i <= |stat| == |stat'| <= NUM_PAGES && n <= |FreeFrames(stat, i)|
    requires forall f :: i <= f < |stat| ==>
      (stat'[f].proc == 0 <==> stat[f].proc == 0 && f !in FreeFrames(stat, i)[..n])
    ensures FreeFrames(stat', i) == FreeFrames(stat, i)[n..]
    decreases |stat| - i
  {
    if i < |stat| {
      var rest := FreeFrames(stat, i + 1);
      FreeFramesMeaning(stat, i + 1);
      if stat[i].proc != 0 {
        assert FreeFrames(stat, i) == rest;
        FreeAfterClaim(stat, stat', i + 1, n);
      } else if n == 0 {
        FreeFramesSame(stat, stat', i);
      } else {
        assert FreeFrames(stat, i)[..n] == [i] + rest[..n - 1];
        assert FreeFrames(stat, i)[n..] == rest[n - 1..];
        assert i !in rest[..n - 1];
        FreeAfterClaim(stat, stat', i + 1, n - 1);
      }
    }
  }

  lemma FreeInRange(stat: seq<Frame>)
    requires |stat| == NUM_PAGES
    ensures forall k :: 0 <= k < |FreeFrames(stat, 0)| ==>
      FreeFrames(stat, 0)[k] < |stat| && stat[FreeFrames(stat, 0)[k]].proc == 0
  {
    FreeFramesMeaning(stat, 0);
    assert forall k :: 0 <= k < |FreeFrames(stat, 0)| ==> FreeFrames(stat, 0)[k] in FreeFrames(stat, 0);
  }

  lemma ChainMembers(stat: seq<Frame>, frames: seq<Word>, pid: nat)
    requires Chain(stat, frames, pid)
    ensures forall f :: f in frames ==> f < |stat| && stat[f].proc == pid
  {
  }

  // Giving the first n free frames to a process.
  lemma ClaimFree(stat: seq<Frame>, n: nat, pid: nat)
    requires |stat| == NUM_PAGES && pid != 0 && n <= |FreeFrames(stat, 0)|
    ensures var free := FreeFrames(stat, 0);
      && (forall k :: 0 <= k < |free| ==> free[k] < |stat| && stat[free[k]].proc == 0)
      && Chain(Claimed(stat, free, n, pid), free[..n], pid)
      && (forall f :: 0 <= f < NUM_PAGES && f !in free[..n] ==> Claimed(stat, free, n, pid)[f] == stat[f])
      && (forall f :: f in free[..n] ==> f < NUM_PAGES && Claimed(stat, free, n, pid)[f].proc == pid)
  {
    var free := FreeFrames(stat, 0);
    FreeInRange(stat);
    FreeFramesMeaning(stat, 0);
    ClaimedMeaning(stat, free, n, pid);
    ChainMembers(Claimed(stat, free, n, pid), free[..n], pid);
  }

  lemma FreeAfterClaimed(stat: seq<Frame>, n: nat, pid: nat)
    requires |stat| == NUM_PAGES && pid != 0 && n <= |FreeFrames(stat, 0)|
    requires forall k :: 0 <= k < |FreeFrames(stat, 0)| ==> FreeFrames(stat, 0)[k] < |stat|
    ensures FreeFrames(Claimed(stat, FreeFrames(stat, 0), n, pid), 0) == FreeFrames(stat, 0)[n..]
  {
    ClaimFree(stat, n, pid);
    FreeFramesMeaning(stat, 0);
    var free := FreeFrames(stat, 0);
    var stat' := Claimed(stat, free, n, pid);
    forall f | 0 <= f < |stat| ensures stat'[f].proc == 0 <==> stat[f].proc == 0 && f !in free[..n] {
    }
    FreeAfterClaim(stat, stat', 0, n);
  }

  /* ---------- The machine ---------- */

  datatype Allocation = Allocation(pid: nat, frames: seq<Word>)

  // procs: the frames of the pages 1, 2, ... of each process, which its page
  // table represents; its break pointer follows the last of them.
  // allocs: history.
  datatype State = State(stat: seq<Frame>, ram: seq<Byte>, procs: map<nat, seq<Word>>, allocs: seq<Allocation>)

  datatype Op =
    | Spawn(pid: nat)  // a new process with an empty page table and bp = PAGE_SIZE
    | Alloc(pid: nat, size: Word)
    | Read(pid: nat, a: Word)
    | Write(pid: nat, a: Word, b: Byte)

  // What the call returns; Data carries the byte of a successful read_mem.
  datatype Out = Address(a: nat) | Data(b: Option<Byte>) | Status(code: int)

  const INITIAL := State(seq(NUM_PAGES, _ => Frame(0, 0, 0)), seq(RAM_SIZE, _ => 0), map[], [])

  function Bp(frames: seq<Word>): nat { PAGE_SIZE * (|frames| + 1) }

  // The physical address of a mapped virtual address.
  function Physical(frames: seq<Word>, a: Word): Option<nat> {
    if 1 <= a / PAGE_SIZE <= |frames| then Some(frames[a / PAGE_SIZE - 1] * PAGE_SIZE + a % PAGE_SIZE) else None
  }

  predicate Valid(s: State, op: Op) {
    match op
    case Spawn(pid) => pid != 0 && pid !in s.procs
    case _ => op.pid in s.procs
  }

  function Allocated(s: State, pid: nat, size: Word): (State, Out)
    requires |s.stat| == NUM_PAGES && pid in s.procs
  {
    FreeFramesMeaning(s.stat, 0);
    var free, frames, n := FreeFrames(s.stat, 0), s.procs[pid], NumPages(size);
    if Bp(frames) + n * PAGE_SIZE > RAM_SIZE || |free| < n then (s, Address(0))
    else
      assert forall k :: 0 <= k < |free| ==> free[k] in free;
      (s.(stat := Claimed(s.stat, free, n, pid),
          procs := s.procs[pid := frames + free[..n]],
          allocs := s.allocs + [Allocation(pid, free[..n])]),
       Address(Bp(frames)))
  }

  function Apply(s: State, op: Op): (State, Out)
    requires |s.stat| == NUM_PAGES && Valid(s, op)
  {
    match op
    case Spawn(pid) => (s.(procs := s.procs[pid := []]), Status(0))
    case Alloc(pid, size) => Allocated(s, pid, size)
    case Read(pid, a) =>
      (match Physical(s.procs[pid], a)
       case None => (s, Data(None))
       case Some(p) => if p < |s.ram| then (s, Data(Some(s.ram[p]))) else (s, Data(None)))
    case Write(pid, a, b) =>
      (match Physical(s.procs[pid], a)
       case None => (s, Status(1))
       case Some(p) => if p < |s.ram| then (s.(ram := s.ram[p := b]), Status(0)) else (s, Status(1)))
  }

  /* ---------- Its invariant ---------- */

  ghost predicate Owned(stat: seq<Frame>, pid: nat, frames: seq<Word>) {
    && pid != 0
    && |frames| < NUM_PAGES
    && (forall k :: 0 <= k < |frames| ==> frames[k] < |stat| && stat[frames[k]].proc == pid)
    && (forall j, k :: 0 <= j < k < |frames| ==> frames[j] != frames[k])
  }

  ghost predicate Accounted(s: State, f: nat)
    requires f < |s.stat|
  {
    s.stat[f].proc != 0 ==> s.stat[f].proc in s.procs && f in s.procs[s.stat[f].proc]
  }

  ghost predicate ZeroIfFree(s: State, f: nat)
    requires f < |s.stat| <= NUM_PAGES && |s.ram| == RAM_SIZE
  {
    s.stat[f].proc == 0 ==> forall o :: f * PAGE_SIZE <= o < (f + 1) * PAGE_SIZE ==> s.ram[o] == 0
  }

  ghost predicate Inv(s: State) {
    && |s.stat| == NUM_PAGES && |s.ram| == RAM_SIZE
    && (forall pid :: pid in s.procs ==> Owned(s.stat, pid, s.procs[pid]))
    && (forall f :: 0 <= f < NUM_PAGES ==> Accounted(s, f))
    && (forall f :: 0 <= f < NUM_PAGES ==> ZeroIfFree(s, f))
    && (forall k :: 0 <= k < |s.allocs| ==> s.allocs[k].pid != 0 && Chain(s.stat, s.allocs[k].frames, s.allocs[k].pid))
  }

  // Pages of processes map to frames one to one, across processes.
  lemma MappingIsInjective(s: State, p: nat, j: nat, q: nat, k: nat)
    requires Inv(s) && p in s.procs && q in s.procs && j < |s.procs[p]| && k < |s.procs[q]|
    requires s.procs[p][j] == s.procs[q][k]
    ensures p == q && j == k
  {
    assert Owned(s.stat, p, s.procs[p]) && Owned(s.stat, q, s.procs[q]);
  }

  // A frame is in use exactly when a page of its owner is mapped to it.
  lemma InUseIffMapped(s: State, f: nat)
    requires Inv(s) && f < NUM_PAGES
    ensures s.stat[f].proc != 0 <==> exists p :: p in s.procs && f in s.procs[p]
    ensures forall p :: p in s.procs && f in s.procs[p] ==> s.stat[f].proc == p
  {
    assert Accounted(s, f);
    forall p | p in s.procs && f in s.procs[p] ensures s.stat[f].proc == p && p != 0 {
      assert Owned(s.stat, p, s.procs[p]);
    }
  }

  predicate Fits(s: State, pid: nat, size: Word)
    requires |s.stat| <= NUM_PAGES && pid in s.procs
  {
    Bp(s.procs[pid]) + NumPages(size) * PAGE_SIZE <= RAM_SIZE && NumPages(size) <= |FreeFrames(s.stat, 0)|
  }

  lemma AllocatedKeepsOwned(s: State, pid: nat, size: Word, q: nat)
    requires Inv(s) && pid in s.procs && q in s.procs && Fits(s, pid, size)
    ensures var s' := Allocated(s, pid, size).0; q in s'.procs && Owned(s'.stat, q, s'.procs[q])
  {
    var free, n := FreeFrames(s.stat, 0), NumPages(size);
    assert Owned(s.stat, q, s.procs[q]) && Owned(s.stat, pid, s.procs[pid]);
    ClaimFree(s.stat, n, pid);
    forall k | 0 <= k < |s.procs[q]| ensures s.procs[q][k] !in free[..n] {
      assert s.stat[s.procs[q][k]].proc != 0;
    }
  }

  lemma AllocatedKeepsFrames(s: State, pid: nat, size: Word, f: nat)
    requires Inv(s) && pid in s.procs && f < NUM_PAGES && Fits(s, pid, size)
    ensures var s' := Allocated(s, pid, size).0;
      |s'.stat| == NUM_PAGES && Accounted(s', f) && |s'.ram| == RAM_SIZE && ZeroIfFree(s', f)
  {
    assert Accounted(s, f) && ZeroIfFree(s, f) && Owned(s.stat, pid, s.procs[pid]);
    ClaimFree(s.stat, NumPages(size), pid);
    FreeFramesMeaning(s.stat, 0);
  }

  lemma AllocatedKeepsChains(s: State, pid: nat, size: Word, k: nat)
    requires Inv(s) && pid in s.procs && k < |Allocated(s, pid, size).0.allocs| && Fits(s, pid, size)
    ensures var s' := Allocated(s, pid, size).0;
      s'.allocs[k].pid != 0 && Chain(s'.stat, s'.allocs[k].frames, s'.allocs[k].pid)
  {
    assert Owned(s.stat, pid, s.procs[pid]);
    ClaimFree(s.stat, NumPages(size), pid);
    FreeFramesMeaning(s.stat, 0);
    if k < |s.allocs| {
      ChainKept(s.stat, Allocated(s, pid, size).0.stat, s.allocs[k].frames, s.allocs[k].pid);
    }
  }

  lemma AllocatedKeepsInv(s: State, pid: nat, size: Word)
    requires Inv(s) && pid in s.procs
    ensures Inv(Allocated(s, pid, size).0)
  {
    if Fits(s, pid, size) {
      var s' := Allocated(s, pid, size).0;
      forall q | q in s'.procs ensures Owned(s'.stat, q, s'.procs[q]) {
        AllocatedKeepsOwned(s, pid, size, q);
      }
      forall f | 0 <= f < NUM_PAGES ensures Accounted(s', f) && ZeroIfFree(s', f) {
        AllocatedKeepsFrames(s, pid, size, f);
      }
      forall k | 0 <= k < |s'.allocs|
        ensures s'.allocs[k].pid != 0 && Chain(s'.stat, s'.allocs[k].frames, s'.allocs[k].pid)
      {
        AllocatedKeepsChains(s, pid, size, k);
      }
    }
  }

  // Claiming free frames leaves the chains of earlier allocations as they are.
  lemma ChainKept(stat: seq<Frame>, stat': seq<Frame>, frames: seq<Word>, pid: nat)
    requires pid != 0 && Chain(stat, frames, pid) && |stat'| == |stat|
    requires forall f :: 0 <= f < |stat| && stat[f].proc != 0 ==> stat'[f] == stat[f]
    ensures Chain(stat', frames, pid)
  {
  }

  // alloc_mem maps exactly the pages that size needs, on frames that were free, or
  // returns 0 and changes nothing.
  lemma AllOrNothing(s: State, pid: nat, size: Word)
    requires Inv(s) && pid in s.procs
    ensures
      var (t, out) := Allocated(s, pid, size);
      var n, had := (size + PAGE_SIZE - 1) / PAGE_SIZE, s.procs[pid];
      if Bp(had) + n * PAGE_SIZE <= RAM_SIZE && n <= |FreeFrames(s.stat, 0)| then
        && out == Address(Bp(had)) && t.ram == s.ram
        && t.procs.Keys == s.procs.Keys && (forall q :: q in s.procs && q != pid ==> t.procs[q] == s.procs[q])
        && |t.procs[pid]| == |had| + n && t.procs[pid][..|had|] == had
        && |t.stat| == NUM_PAGES && Chain(t.stat, t.procs[pid][|had|..], pid)
        && (forall f :: f in t.procs[pid][|had|..] ==> f < NUM_PAGES && s.stat[f].proc == 0)
        && (forall f :: 0 <= f < NUM_PAGES && f !in t.procs[pid][|had|..] ==> t.stat[f] == s.stat[f])
      else
        t == s && out == Address(0)
  {
    var n := NumPages(size);
    assert n == (size + PAGE_SIZE - 1) / PAGE_SIZE;
    if Fits(s, pid, size) {
      assert Owned(s.stat, pid, s.procs[pid]);
      ClaimFree(s.stat, n, pid);
      assert Allocated(s, pid, size).0.procs[pid][|s.procs[pid]|..] == FreeFrames(s.stat, 0)[..n];
    }
  }

  lemma PhysicalInRam(s: State, pid: nat, a: Word)
    requires Inv(s) && pid in s.procs && Physical(s.procs[pid], a).Some?
    ensures var f := s.procs[pid][a / PAGE_SIZE - 1];
      && f < NUM_PAGES && s.stat[f].proc == pid != 0
      && Physical(s.procs[pid], a).value == f * PAGE_SIZE + a % PAGE_SIZE < RAM_SIZE
  {
    assert Owned(s.stat, pid, s.procs[pid]);
  }

  lemma WriteKeepsInv(s: State, pid: nat, a: Word, b: Byte)
    requires Inv(s) && pid in s.procs
    ensures Inv(Apply(s, Write(pid, a, b)).0)
  {
    var s' := Apply(s, Write(pid, a, b)).0;
    if Physical(s.procs[pid], a).Some? {
      PhysicalInRam(s, pid, a);
      forall f | 0 <= f < NUM_PAGES ensures Accounted(s', f) && ZeroIfFree(s', f) {
        assert Accounted(s, f) && ZeroIfFree(s, f);
      }
    }
  }

  lemma StepKeepsInv(s: State, op: Op)
    requires Inv(s) && Valid(s, op)
    ensures Inv(Apply(s, op).0)
  {
    match op
    case Spawn(pid) =>
      forall f | 0 <= f < NUM_PAGES ensures Accounted(Apply(s, op).0, f) && ZeroIfFree(Apply(s, op).0, f) {
        assert Accounted(s, f) && ZeroIfFree(s, f);
      }
    case Alloc(pid, size) => AllocatedKeepsInv(s, pid, size);
    case Read(pid, a) =>
    case Write(pid, a, b) => WriteKeepsInv(s, pid, a, b);
  }
}

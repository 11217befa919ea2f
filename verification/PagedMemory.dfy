/** Runs of the MM_PAGING layer: growth is disjoint, and resident pages behave like
    a flat byte map per process. */
module PagedMemory {
  import opened Options
  import opened Bits
  import opened Pte
  import opened PagingSpec

  // ss[i] is the state before ops[i], which returns outs[i].
  ghost predicate IsRun(size: nat, ss: seq<State>, ops: seq<Op>, outs: seq<Out>) {
    && size <= RAM_LIMIT
    && |ss| == |ops| + 1 && |outs| == |ops| && ss[0] == Initial(size)
    && forall i :: 0 <= i < |ops| ==> Step(ss[i], ops[i], ss[i + 1], outs[i])
  }

  ghost predicate Step(s: State, op: Op, t: State, out: Out) {
    Shape(s) && Valid(s, op) && Apply(s, op) == (t, out)
  }

  lemma {:induction false} RunInv(size: nat, ss: seq<State>, ops: seq<Op>, outs: seq<Out>, i: nat)
    requires IsRun(size, ss, ops, outs) && i < |ss|
    ensures Inv(ss[i])
  {
    if i == 0 {
      InitialInv(size);
    } else {
      RunInv(size, ss, ops, outs, i - 1);
      assert Step(ss[i - 1], ops[i - 1], ss[i], outs[i - 1]);
      StepKeepsInv(ss[i - 1], ops[i - 1]);
    }
  }

  /* ---------- Growth ---------- */

  // A growth call that is met maps pages within the space that were not resident.
  lemma StepGrows(s: State, op: Op)
    requires Inv(s) && Valid(s, op) && op.Grow?
    ensures
      var sp, g := s.procs[op.pid], Grown(s.free, s.procs[op.pid], op.vmaid, op.size);
      var n, first := PagesOf(op.size), sp.vmEnd / PAGING_PAGESZ;
      && !Overlaps(sp) && g.2.bp == sp.bp + n * PAGING_PAGESZ && |g.2.pages| == PAGING_MAX_PGN
      && g.2.vmEnd == (if op.vmaid > 0 then sp.vmEnd else g.2.bp)
      && g.0 == (if op.vmaid <= 0 && 0 <= n <= |s.free| then 0 else -1)
      && (g.0 != 0 ==> g.2.pages == sp.pages)
      && (g.0 == 0 ==> forall p :: 0 <= p < PAGING_MAX_PGN ==>
            g.2.pages[p] == if first <= p < first + n then Some(s.free[p - first]) else sp.pages[p])
      && (forall p :: first <= p < first + n ==> !Resident(sp, p))
      && (g.0 == 0 && n > 0 ==> first + n <= PAGING_MAX_PGN)
  {
    GrownMeaning(s.free, s.procs[op.pid], op.vmaid, op.size);
    if 0 < PagesOf(op.size) <= |s.free| { GrownFits(s.free, s.procs[op.pid], op.size); }
  }

  // After a step a page has the frame it had, or it is newly mapped to a free frame.
  lemma StepMaps(s: State, op: Op, q: nat, p: nat)
    requires Inv(s) && Valid(s, op)
    ensures var t := Apply(s, op).0;
      && (Maps(s, q, p) ==> Maps(t, q, p) && FrameOf(t, q, p) == FrameOf(s, q, p))
      && (Maps(t, q, p) && !Maps(s, q, p) ==>
            op.Grow? && t.ram == s.ram && FrameOf(t, q, p) in s.free)
  {
    if op.Grow? && op.pid == q {
      StepGrows(s, op);
    }
  }

  // Once mapped, a page keeps its frame for the rest of the run.
  lemma {:induction false} MappedForGood(size: nat, ss: seq<State>, ops: seq<Op>, outs: seq<Out>,
                                         i: nat, j: nat, q: nat, p: nat)
    requires IsRun(size, ss, ops, outs) && i <= j < |ss| && Maps(ss[i], q, p)
    ensures Maps(ss[j], q, p) && FrameOf(ss[j], q, p) == FrameOf(ss[i], q, p)
    decreases j - i
  {
    if i < j {
      MappedForGood(size, ss, ops, outs, i, j - 1, q, p);
      RunInv(size, ss, ops, outs, j - 1);
      assert Step(ss[j - 1], ops[j - 1], ss[j], outs[j - 1]);
      StepMaps(ss[j - 1], ops[j - 1], q, p);
    }
  }

  // What one growth call of a run does: the overlap check passes, the break pointer
  // moves by the size rounded to pages, for area 0 the area's end moves to it, and the
  // call succeeds exactly if the size is not negative and enough frames are free,
  // mapping that many pages, none of which was mapped before.
  lemma GrowthMeaning(size: nat, ss: seq<State>, ops: seq<Op>, outs: seq<Out>, i: nat)
    requires IsRun(size, ss, ops, outs) && i < |ops| && ops[i].Grow?
    ensures ops[i].pid in ss[i].procs && ops[i].pid in ss[i + 1].procs
    ensures
      var (sp, sp') := (ss[i].procs[ops[i].pid], ss[i + 1].procs[ops[i].pid]);
      var n, first := PagesOf(ops[i].size), sp.vmEnd / PAGING_PAGESZ;
      && !Overlaps(sp) && sp'.bp == sp.bp + n * PAGING_PAGESZ
      && sp'.vmEnd == (if ops[i].vmaid > 0 then sp.vmEnd else sp'.bp)
      && outs[i] == Status(if ops[i].vmaid <= 0 && 0 <= n <= |ss[i].free| then 0 else -1)
      && (outs[i] == Status(0) && n > 0 ==> first + n <= PAGING_MAX_PGN)
      && (forall p :: 0 <= p < PAGING_MAX_PGN ==>
            (Resident(sp', p) <==> Resident(sp, p) || (outs[i] == Status(0) && first <= p < first + n)))
      && (forall p :: first <= p < first + n ==> !Resident(sp, p))
  {
    RunInv(size, ss, ops, outs, i);
    assert Step(ss[i], ops[i], ss[i + 1], outs[i]);
    StepGrows(ss[i], ops[i]);
  }

  // In every state: limits ordered and aligned; a page is resident exactly if one
  // successful call mapped it, and then only one; and no frame is shared.
  lemma GrowthIsDisjoint(size: nat, ss: seq<State>, ops: seq<Op>, outs: seq<Out>, i: nat)
    requires IsRun(size, ss, ops, outs) && i < |ss|
    ensures var s := ss[i];
      && (forall q :: q in s.procs ==>
            s.procs[q].vmEnd <= s.procs[q].bp
            && s.procs[q].vmEnd % PAGING_PAGESZ == 0 && s.procs[q].bp % PAGING_PAGESZ == 0)
      && (forall q, p :: Maps(s, q, p) <==> exists k :: 0 <= k < |s.maps| && Covers(s.maps[k], q, p))
      && (forall q, p, j, k :: 0 <= j < k < |s.maps| && Covers(s.maps[j], q, p) ==> !Covers(s.maps[k], q, p))
      && (forall q, p :: Maps(s, q, p) ==> FrameOf(s, q, p) !in s.free && FrameInRam(s, FrameOf(s, q, p)))
      && (forall q, p, q', p' :: Maps(s, q, p) && Maps(s, q', p') && (q, p) != (q', p') ==>
            FrameOf(s, q, p) != FrameOf(s, q', p'))
  {
    RunInv(size, ss, ops, outs, i);
    var s := ss[i];
    forall q, p ensures Maps(s, q, p) <==> exists k :: 0 <= k < |s.maps| && Covers(s.maps[k], q, p) {
      assert Explained(s, q, p);
      if k :| 0 <= k < |s.maps| && Covers(s.maps[k], q, p) { assert MappingOk(s, s.maps[k]); }
    }
    forall q, p, j, k | 0 <= j < k < |s.maps| && Covers(s.maps[j], q, p) ensures !Covers(s.maps[k], q, p) {
      assert Covers(s.maps[j], s.maps[j].pid, p);
    }
  }

  /* ---------- A resident page that gets another frame ---------- */

  // In every state of every run, a size of -511 or below lets the next growth do that
  // exactly if a resident page lies within reach of the free frames.
  lemma RunRemapsIff(size: nat, ss: seq<State>, ops: seq<Op>, outs: seq<Out>, i: nat, q: nat, inc: int)
    requires IsRun(size, ss, ops, outs) && i < |ss| && q in ss[i].procs
    requires NoOverflow(ss[i].procs[q], inc) && inc <= -511
    ensures var free, sp := ss[i].free, ss[i].procs[q];
      && LimitsOk(sp) && Roomy(free, sp.bp)
      && ((exists n: nat, p: nat :: Remaps(free, sp, inc, n, p)) <==> (exists p: nat :: InReach(free, sp, inc, p)))
  {
    RunInv(size, ss, ops, outs, i);
    forall p: nat | Resident(ss[i].procs[q], p) ensures ss[i].procs[q].pages[p].value !in ss[i].free {
      assert Maps(ss[i], q, p);
    }
    RemapsIff(ss[i].free, ss[i].procs[q], inc);
  }

  // A growth call by one page in a state where it is met.
  lemma OnePage(s: State)
    requires Inv(s) && 0 in s.procs && s.free != [] && s.procs[0].bp < PAGING_SPACE - PAGING_PAGESZ
    ensures Shape(s) && Valid(s, Grow(0, 0, PAGING_PAGESZ))
    ensures var t, sp := Apply(s, Grow(0, 0, PAGING_PAGESZ)).0, s.procs[0];
      && Step(s, Grow(0, 0, PAGING_PAGESZ), t, Status(0)) && Inv(t)
      && t.free == s.free[1..] && 0 in t.procs
      && t.procs[0].bp == t.procs[0].vmEnd == sp.bp + PAGING_PAGESZ
      && |t.procs[0].pages| == PAGING_MAX_PGN && sp.vmEnd / PAGING_PAGESZ < PAGING_MAX_PGN
      && t.procs[0].pages[sp.vmEnd / PAGING_PAGESZ] == Some(s.free[0])
  {
    AlignMeaning(PAGING_PAGESZ);
    StepGrows(s, Grow(0, 0, PAGING_PAGESZ));
    StepKeepsInv(s, Grow(0, 0, PAGING_PAGESZ));
  }

  lemma PageFiveRemapped(free: seq<Word>, sp: Space)
    requires LimitsOk(sp) && Roomy(free, sp.bp) && sp.bp == 1536 && free != [] && free[0] == 2
    requires Resident(sp, 5) && sp.pages[5] == Some(1)
    ensures NoOverflow(sp, -511) && !LeavesNothingBehind(sp, 0, -511)
    ensures Remaps(free, sp, -511, 1, 5) && Regrown(free, sp, -511, 1).pages[5] == Some(2)
  {
    AlignMeaning(-511);
    RegrownPages(free, sp, -511, 1);
  }

  lemma FirstProcess(size: nat) returns (s: State)
    requires 3 * PAGING_PAGESZ <= size <= RAM_LIMIT
    ensures Step(Initial(size), Spawn(0), s, Status(0)) && Inv(s)
    ensures 0 in s.procs && s.procs[0] == NewSpace()
    ensures |s.free| >= 3 && s.free[0] == 0 && s.free[1] == 1 && s.free[2] == 2
  {
    s := Apply(Initial(size), Spawn(0)).0;
    InitialInv(size);
    SpawnKeepsInv(Initial(size), 0);
  }

  lemma TwoPages(s: State) returns (t: State, u: State)
    requires Inv(s) && 0 in s.procs && s.procs[0] == NewSpace()
    requires |s.free| >= 3 && s.free[0] == 0 && s.free[1] == 1 && s.free[2] == 2
    ensures var g := Grow(0, 0, PAGING_PAGESZ); Step(s, g, t, Status(0)) && Step(t, g, u, Status(0))
    ensures Inv(u) && Maps(u, 0, 5) && FrameOf(u, 0, 5) == 1
    ensures u.procs[0].bp == 1536 && u.free != [] && u.free[0] == 2
  {
    OnePage(s);
    t := Apply(s, Grow(0, 0, PAGING_PAGESZ)).0;
    OnePage(t);
    u := Apply(t, Grow(0, 0, PAGING_PAGESZ)).0;
  }

  // Two growths by a page, a size of -511, and a growth by a page: page 5, which the
  // second one mapped to frame 1, gets frame 2 from the last one.
  lemma RemappedAfterRun(size: nat) returns (ss: seq<State>)
    requires 3 * PAGING_PAGESZ <= size <= RAM_LIMIT
    ensures var g := Grow(0, 0, PAGING_PAGESZ);
      IsRun(size, ss, [Spawn(0), g, g], [Status(0), Status(0), Status(0)])
    ensures Inv(ss[3]) && Maps(ss[3], 0, 5) && FrameOf(ss[3], 0, 5) == 1
    ensures var free, sp := ss[3].free, ss[3].procs[0];
      && NoOverflow(sp, -511) && !LeavesNothingBehind(sp, 0, -511)
      && Remaps(free, sp, -511, 1, 5) && Regrown(free, sp, -511, 1).pages[5] == Some(2)
  {
    var s := FirstProcess(size);
    var t, u := TwoPages(s);
    PageFiveRemapped(u.free, u.procs[0]);
    ss := [Initial(size), s, t, u];
  }

  /* ---------- Where the frames are ---------- */

  ghost function MappedPages(s: State): set<(nat, nat)> {
    set q: nat, p: nat | q in s.procs && p < PAGING_MAX_PGN && Resident(s.procs[q], p) :: (q, p)
  }

  ghost function Range(q: nat, first: nat, n: nat): set<(nat, nat)> {
    set p: nat | first <= p < first + n :: (q, p)
  }

  lemma {:induction false} RangeSize(q: nat, first: nat, n: nat)
    ensures |Range(q, first, n)| == n
  {
    if n == 0 {
      assert Range(q, first, 0) == {};
    } else {
      RangeSize(q, first, n - 1);
      assert Range(q, first, n) == Range(q, first, n - 1) + {(q, first + n - 1)};
    }
  }

  // A growth call that asks for more frames than there are, but finds some.
  predicate Leaks(s: State, op: Op) {
    op.Grow? && op.vmaid <= 0 && 0 < |s.free| < PagesOf(op.size)
  }

  // The frames lost in the first n steps.
  function Lost(ss: seq<State>, ops: seq<Op>, n: nat): nat
    requires n <= |ops| < |ss|
  {
    if n == 0 then 0 else Lost(ss, ops, n - 1) + if Leaks(ss[n - 1], ops[n - 1]) then |ss[n - 1].free| else 0
  }

  lemma ExtendsPage(s: State, t: State, pid: nat, first: nat, n: nat, x: (nat, nat))
    requires Extends(s, t, pid, first, n) && (n > 0 ==> first + n <= PAGING_MAX_PGN)
    requires forall p :: first <= p < first + n ==> !Resident(s.procs[pid], p)
    ensures x in MappedPages(t) <==> x in MappedPages(s) || x in Range(pid, first, n)
    ensures !(x in MappedPages(s) && x in Range(pid, first, n))
  {
  }

  lemma ExtendsPages(s: State, t: State, pid: nat, first: nat, n: nat)
    requires Extends(s, t, pid, first, n) && (n > 0 ==> first + n <= PAGING_MAX_PGN)
    requires forall p :: first <= p < first + n ==> !Resident(s.procs[pid], p)
    ensures |MappedPages(t)| == |MappedPages(s)| + n
  {
    var old', new' := MappedPages(s), Range(pid, first, n);
    RangeSize(pid, first, n);
    forall x: (nat, nat) ensures (x in MappedPages(t) <==> x in old' || x in new') && !(x in old' && x in new') {
      ExtendsPage(s, t, pid, first, n, x);
    }
    assert MappedPages(t) == old' + new' && old' !! new';
  }

  lemma FullGrowCounts(s: State, op: Op)
    requires Inv(s) && Valid(s, op) && op.Grow? && op.vmaid <= 0 && 0 <= PagesOf(op.size) <= |s.free|
    ensures var t := Apply(s, op).0; |t.free| + |MappedPages(t)| == |s.free| + |MappedPages(s)|
  {
    FullGrown(s.free, s.procs[op.pid], op.vmaid, op.size);
    FullGrowExtends(s, op.pid, op.vmaid, op.size);
    ExtendsPages(s, Apply(s, op).0, op.pid, s.procs[op.pid].vmEnd / PAGING_PAGESZ, PagesOf(op.size));
  }

  lemma StepCounts(s: State, op: Op)
    requires Inv(s) && Valid(s, op)
    ensures var t := Apply(s, op).0;
      |t.free| + |MappedPages(t)| + (if Leaks(s, op) then |s.free| else 0) == |s.free| + |MappedPages(s)|
  {
    if op.Grow? && op.vmaid <= 0 && 0 <= PagesOf(op.size) <= |s.free| {
      FullGrowCounts(s, op);
    } else {
      if op.Grow? {
        AlignMeaning(op.size);
        GrownMeaning(s.free, s.procs[op.pid], op.vmaid, op.size);
      }
      assert MappedPages(Apply(s, op).0) == MappedPages(s);
    }
  }

  // In every state of every run, each frame of the device is free, or mapped by one
  // page, or was lost by a call that could not be met in full.
  lemma {:induction false} FramesAccounted(size: nat, ss: seq<State>, ops: seq<Op>, outs: seq<Out>, i: nat)
    requires IsRun(size, ss, ops, outs) && i < |ss|
    ensures |ss[i].free| + |MappedPages(ss[i])| + Lost(ss, ops, i) == size / PAGING_PAGESZ
  {
    if i == 0 {
      assert MappedPages(ss[0]) == {};
    } else {
      FramesAccounted(size, ss, ops, outs, i - 1);
      RunInv(size, ss, ops, outs, i - 1);
      assert Step(ss[i - 1], ops[i - 1], ss[i], outs[i - 1]);
      StepCounts(ss[i - 1], ops[i - 1]);
    }
  }

  lemma {:induction false} LostNothing(ss: seq<State>, ops: seq<Op>, n: nat)
    requires n <= |ops| < |ss|
    ensures Lost(ss, ops, n) == 0 <==> forall k :: 0 <= k < n ==> !Leaks(ss[k], ops[k])
  {
    if n > 0 { LostNothing(ss, ops, n - 1); }
  }

  // So all frames are free or mapped if and only if no call has found some frames,
  // but fewer than it asked for.
  lemma NothingLostIff(size: nat, ss: seq<State>, ops: seq<Op>, outs: seq<Out>, i: nat)
    requires IsRun(size, ss, ops, outs) && i < |ss|
    ensures |ss[i].free| + |MappedPages(ss[i])| == size / PAGING_PAGESZ <==>
      forall k :: 0 <= k < i ==> !Leaks(ss[k], ops[k])
  {
    FramesAccounted(size, ss, ops, outs, i);
    LostNothing(ss, ops, i);
  }

  /* ---------- The flat byte map ---------- */

  // The byte that process pid last wrote to the address, among the first n
  // operations; 0 if it has written none. The bus has 22 bits.
  function LastSet(ops: seq<Op>, n: nat, pid: nat, e: nat): Byte
    requires n <= |ops|
  {
    if n == 0 then 0
    else if ops[n - 1].Set? && ops[n - 1].pid == pid && ops[n - 1].a % PAGING_SPACE == e then ops[n - 1].b
    else LastSet(ops, n - 1, pid, e)
  }

  // Byte o of page p.
  ghost predicate CellOk(s: State, ops: seq<Op>, n: nat, pid: nat, p: nat, o: nat)
    requires n <= |ops|
  {
    if Maps(s, pid, p)
    then FrameOf(s, pid, p) * PAGING_PAGESZ + o < |s.ram|
         && s.ram[FrameOf(s, pid, p) * PAGING_PAGESZ + o] == LastSet(ops, n, pid, p * PAGING_PAGESZ + o)
    else LastSet(ops, n, pid, p * PAGING_PAGESZ + o) == 0
  }

  lemma AddressIsPageAndOffset(a: nat, p: nat, o: nat)
    requires p < PAGING_MAX_PGN && o < PAGING_PAGESZ
    ensures a % PAGING_SPACE == p * PAGING_PAGESZ + o <==> PageOf(a) == p && OffsetOf(a) == o
  {
  }

  lemma SetCell(s: State, ops: seq<Op>, n: nat, pid: nat, p: nat, o: nat)
    requires Inv(s) && n < |ops| && ops[n].Set? && Valid(s, ops[n]) && o < PAGING_PAGESZ && p < PAGING_MAX_PGN
    requires CellOk(s, ops, n, pid, p, o)
    ensures CellOk(Apply(s, ops[n]).0, ops, n + 1, pid, p, o)
  {
    var q, a := ops[n].pid, ops[n].a;
    PhysInRam(s, q, a);
    AddressIsPageAndOffset(a, p, o);
    if Maps(s, pid, p) && !(q == pid && PageOf(a) == p && OffsetOf(a) == o) {
      assert (q, PageOf(a)) != (pid, p) ==> FrameOf(s, q, PageOf(a)) != FrameOf(s, pid, p);
      assert Phys(s.procs[q], a) != FrameOf(s, pid, p) * PAGING_PAGESZ + o;
    }
  }

  lemma OtherCell(s: State, ops: seq<Op>, n: nat, pid: nat, p: nat, o: nat)
    requires Inv(s) && n < |ops| && !ops[n].Set? && Valid(s, ops[n]) && o < PAGING_PAGESZ && p < PAGING_MAX_PGN
    requires CellOk(s, ops, n, pid, p, o)
    ensures CellOk(Apply(s, ops[n]).0, ops, n + 1, pid, p, o)
  {
    var t := Apply(s, ops[n]).0;
    StepMaps(s, ops[n], pid, p);
    if Maps(t, pid, p) && !Maps(s, pid, p) {
      var k :| 0 <= k < |s.free| && s.free[k] == FrameOf(t, pid, p);
      assert FrameInRam(s, s.free[k]) && ZeroFrame(s, s.free[k]);
    }
  }

  lemma {:induction false} RunCell(size: nat, ss: seq<State>, ops: seq<Op>, outs: seq<Out>,
                                   i: nat, pid: nat, p: nat, o: nat)
    requires IsRun(size, ss, ops, outs) && i < |ss| && o < PAGING_PAGESZ && p < PAGING_MAX_PGN
    ensures CellOk(ss[i], ops, i, pid, p, o)
  {
    if i > 0 {
      RunCell(size, ss, ops, outs, i - 1, pid, p, o);
      RunInv(size, ss, ops, outs, i - 1);
      assert Step(ss[i - 1], ops[i - 1], ss[i], outs[i - 1]);
      if ops[i - 1].Set? {
        SetCell(ss[i - 1], ops, i - 1, pid, p, o);
      } else {
        OtherCell(ss[i - 1], ops, i - 1, pid, p, o);
      }
    }
  }

  lemma GetCell(s: State, ops: seq<Op>, n: nat, pid: nat, a: Word)
    requires Inv(s) && n <= |ops| && Valid(s, Get(pid, a)) && CellOk(s, ops, n, pid, PageOf(a), OffsetOf(a))
    ensures Apply(s, Get(pid, a)).1 == Value(LastSet(ops, n, pid, a % PAGING_SPACE))
    ensures Phys(s.procs[pid], a) < |s.ram|
  {
    AddressIsPageAndOffset(a, PageOf(a), OffsetOf(a));
    PhysInRam(s, pid, a);
  }

  // Every read of a resident page returns the byte that its own process last wrote
  // there, or 0, whatever else happened in between, and stays within the device.
  lemma GetReturnsLastSet(size: nat, ss: seq<State>, ops: seq<Op>, outs: seq<Out>, i: nat)
    requires IsRun(size, ss, ops, outs) && i < |ops| && ops[i].Get?
    ensures outs[i] == Value(LastSet(ops, i, ops[i].pid, ops[i].a % PAGING_SPACE))
    ensures ops[i].pid in ss[i].procs && Resident(ss[i].procs[ops[i].pid], PageOf(ops[i].a))
    ensures Phys(ss[i].procs[ops[i].pid], ops[i].a) < |ss[i].ram| == size
  {
    var a, pid := ops[i].a, ops[i].pid;
    assert Step(ss[i], ops[i], ss[i + 1], outs[i]);
    RunInv(size, ss, ops, outs, i);
    RunCell(size, ss, ops, outs, i, pid, PageOf(a), OffsetOf(a));
    GetCell(ss[i], ops, i, pid, a);
    RamSize(size, ss, ops, outs, i);
  }

  lemma {:induction false} RamSize(size: nat, ss: seq<State>, ops: seq<Op>, outs: seq<Out>, i: nat)
    requires IsRun(size, ss, ops, outs) && i < |ss|
    ensures |ss[i].ram| == size
  {
    if i > 0 {
      RamSize(size, ss, ops, outs, i - 1);
      assert Step(ss[i - 1], ops[i - 1], ss[i], outs[i - 1]);
    }
  }
}

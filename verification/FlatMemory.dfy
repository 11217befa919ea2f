/** A zero-initialised flat memory per process, and the proof that the paged
    memory of src/mem.c behaves exactly like it. */
module FlatMemory {
  import opened Options
  import opened Bits
  import opened TwoLevel
  import M = MemSpec

  // mem[pid] holds the bytes from PAGE_SIZE up to the break pointer of pid;
  // used: pages given out so far.
  datatype State = State(mem: map<nat, seq<Byte>>, used: nat)

  const INITIAL := State(map[], 0)

  function Zeros(n: nat): seq<Byte> { seq(n, _ => 0) }

  predicate Valid(f: State, op: M.Op) {
    match op
    case Spawn(pid) => pid != 0 && pid !in f.mem
    case _ => op.pid in f.mem
  }

  predicate Holds(bytes: seq<Byte>, a: nat) { PAGE_SIZE <= a < PAGE_SIZE + |bytes| }

  function Apply(f: State, op: M.Op): (State, M.Out)
    requires Valid(f, op)
  {
    match op
    case Spawn(pid) => (f.(mem := f.mem[pid := []]), M.Status(0))
    case Alloc(pid, size) =>
      var n, bp := M.NumPages(size), PAGE_SIZE + |f.mem[pid]|;
      if bp + n * PAGE_SIZE > RAM_SIZE || f.used + n > NUM_PAGES then (f, M.Address(0))
      else (State(f.mem[pid := f.mem[pid] + Zeros(n * PAGE_SIZE)], f.used + n), M.Address(bp))
    case Read(pid, a) =>
      (f, M.Data(if Holds(f.mem[pid], a) then Some(f.mem[pid][a - PAGE_SIZE]) else None))
    case Write(pid, a, b) =>
      if Holds(f.mem[pid], a)
      then (f.(mem := f.mem[pid := f.mem[pid][a - PAGE_SIZE := b]]), M.Status(0))
      else (f, M.Status(1))
  }

  // Operations on processes that do not exist, or exist already, are ignored.
  function Perform(f: State, op: M.Op): (State, M.Out) {
    if Valid(f, op) then Apply(f, op) else (f, M.Status(-1))
  }

  function PerformPaged(s: M.State, op: M.Op): (M.State, M.Out) {
    if |s.stat| == NUM_PAGES && M.Valid(s, op) then M.Apply(s, op) else (s, M.Status(-1))
  }

  // A whole run: the state reached and what every call returned.
  function Run(f: State, ops: seq<M.Op>): (State, seq<M.Out>) {
    if ops == [] then (f, [])
    else
      var (g, outs) := Run(f, ops[..|ops| - 1]);
      var (h, out) := Perform(g, ops[|ops| - 1]);
      (h, outs + [out])
  }

  function RunPaged(s: M.State, ops: seq<M.Op>): (M.State, seq<M.Out>) {
    if ops == [] then (s, [])
    else
      var (t, outs) := RunPaged(s, ops[..|ops| - 1]);
      var (u, out) := PerformPaged(t, ops[|ops| - 1]);
      (u, outs + [out])
  }

  /* ---------- The abstraction ---------- */

  function Cell(ram: seq<Byte>, k: nat): Byte { if k < |ram| then ram[k] else 0 }

  function View(ram: seq<Byte>, frames: seq<Word>): (v: seq<Byte>)
    ensures |v| == |frames| * PAGE_SIZE
  {
    seq(|frames| * PAGE_SIZE, i requires 0 <= i < |frames| * PAGE_SIZE =>
      Cell(ram, frames[i / PAGE_SIZE] * PAGE_SIZE + i % PAGE_SIZE))
  }

  function Abs(s: M.State): State
    requires |s.stat| == NUM_PAGES
  {
    M.FreeFramesMeaning(s.stat, 0);
    State(map pid | pid in s.procs :: View(s.ram, s.procs[pid]), NUM_PAGES - |M.FreeFrames(s.stat, 0)|)
  }

  lemma ViewAt(ram: seq<Byte>, frames: seq<Word>, a: Word)
    ensures Holds(View(ram, frames), a) <==> M.Physical(frames, a).Some?
    ensures Holds(View(ram, frames), a) ==>
      View(ram, frames)[a - PAGE_SIZE] == Cell(ram, M.Physical(frames, a).value)
  {
    assert (a - PAGE_SIZE) / PAGE_SIZE == a / PAGE_SIZE - 1;
    assert (a - PAGE_SIZE) % PAGE_SIZE == a % PAGE_SIZE;
  }

  // Fresh frames are zero, so a process's view grows by zero bytes.
  lemma ViewGrows(ram: seq<Byte>, frames: seq<Word>, fresh': seq<Word>)
    requires |ram| == RAM_SIZE
    requires forall k :: 0 <= k < |fresh'| ==> fresh'[k] < NUM_PAGES && ZeroFrame(ram, fresh'[k])
    ensures View(ram, frames + fresh') == View(ram, frames) + Zeros(|fresh'| * PAGE_SIZE)
  {
    var all := frames + fresh';
    forall i | 0 <= i < |all| * PAGE_SIZE
      ensures View(ram, all)[i] == (View(ram, frames) + Zeros(|fresh'| * PAGE_SIZE))[i]
    {
      if i >= |frames| * PAGE_SIZE {
        assert all[i / PAGE_SIZE] == fresh'[i / PAGE_SIZE - |frames|];
      }
    }
  }

  ghost predicate ZeroFrame(ram: seq<Byte>, f: nat)
    requires |ram| == RAM_SIZE && f < NUM_PAGES
  {
    forall o :: f * PAGE_SIZE <= o < (f + 1) * PAGE_SIZE ==> ram[o] == 0
  }

  /* ---------- Every operation refines its flat counterpart ---------- */

  // Giving a process zero frames appends zeros to its flat memory only.
  lemma GrowRefines(s: M.State, t: M.State, pid: nat, fresh': seq<Word>)
    requires |s.stat| == NUM_PAGES == |t.stat| && |s.ram| == RAM_SIZE && pid in s.procs
    requires t.ram == s.ram && t.procs == s.procs[pid := s.procs[pid] + fresh']
    requires forall k :: 0 <= k < |fresh'| ==> fresh'[k] < NUM_PAGES && ZeroFrame(s.ram, fresh'[k])
    ensures Abs(t).mem == Abs(s).mem[pid := View(s.ram, s.procs[pid]) + Zeros(|fresh'| * PAGE_SIZE)]
  {
    ViewGrows(s.ram, s.procs[pid], fresh');
    AbsMem(s, t, pid, View(s.ram, s.procs[pid]) + Zeros(|fresh'| * PAGE_SIZE));
  }

  lemma FreshIsZero(s: M.State, n: nat)
    requires M.Inv(s) && n <= |M.FreeFrames(s.stat, 0)|
    ensures forall k :: 0 <= k < n ==>
      M.FreeFrames(s.stat, 0)[..n][k] < NUM_PAGES && ZeroFrame(s.ram, M.FreeFrames(s.stat, 0)[..n][k])
  {
    var free := M.FreeFrames(s.stat, 0);
    M.FreeInRange(s.stat);
    forall k | 0 <= k < n ensures free[..n][k] < NUM_PAGES && ZeroFrame(s.ram, free[..n][k]) {
      assert M.ZeroIfFree(s, free[k]);
    }
  }

  lemma AllocFits(s: M.State, pid: nat, size: Word)
    requires M.Inv(s) && pid in s.procs && M.Fits(s, pid, size)
    ensures var t, n := M.Allocated(s, pid, size).0, M.NumPages(size);
      && |t.stat| == NUM_PAGES
      && Abs(t).mem == Abs(s).mem[pid := View(s.ram, s.procs[pid]) + Zeros(n * PAGE_SIZE)]
      && Abs(t).used == Abs(s).used + n
  {
    var free, n := M.FreeFrames(s.stat, 0), M.NumPages(size);
    M.FreeInRange(s.stat);
    M.FreeAfterClaimed(s.stat, n, pid) by { assert M.Owned(s.stat, pid, s.procs[pid]); }
    FreshIsZero(s, n);
    GrowRefines(s, M.Allocated(s, pid, size).0, pid, free[..n]);
  }

  lemma AllocRefines(s: M.State, pid: nat, size: Word)
    requires M.Inv(s) && pid in s.procs
    ensures var (t, out) := M.Allocated(s, pid, size);
      |t.stat| == NUM_PAGES && (Abs(t), out) == Apply(Abs(s), M.Alloc(pid, size))
  {
    if M.Fits(s, pid, size) { AllocFits(s, pid, size); }
  }

  lemma ReadRefines(s: M.State, pid: nat, a: Word)
    requires M.Inv(s) && pid in s.procs
    ensures M.Apply(s, M.Read(pid, a)) == (s, Apply(Abs(s), M.Read(pid, a)).1)
  {
  }

  // A write shows in no other view, and in its own at no other address.
  lemma WriteElsewhere(s: M.State, pid: nat, a: Word, b: Byte, q: nat, i: nat)
    requires M.Inv(s) && pid in s.procs && q in s.procs && M.Physical(s.procs[pid], a).Some?
    requires i < |s.procs[q]| * PAGE_SIZE && (q != pid || i != a - PAGE_SIZE)
    ensures M.Physical(s.procs[pid], a).value < |s.ram|
    ensures View(s.ram[M.Physical(s.procs[pid], a).value := b], s.procs[q])[i] == View(s.ram, s.procs[q])[i]
  {
    M.PhysicalInRam(s, pid, a);
    assert M.Owned(s.stat, q, s.procs[q]);
    assert M.Owned(s.stat, pid, s.procs[pid]);
    assert s.procs[q][i / PAGE_SIZE] * PAGE_SIZE + i % PAGE_SIZE != M.Physical(s.procs[pid], a).value;
  }

  lemma ViewAfterWrite(s: M.State, pid: nat, a: Word, b: Byte, q: nat)
    requires M.Inv(s) && pid in s.procs && q in s.procs && M.Physical(s.procs[pid], a).Some?
    ensures M.Physical(s.procs[pid], a).value < |s.ram| && Holds(View(s.ram, s.procs[pid]), a)
    ensures var ram' := s.ram[M.Physical(s.procs[pid], a).value := b];
      View(ram', s.procs[q]) ==
        if q == pid then View(s.ram, s.procs[q])[a - PAGE_SIZE := b] else View(s.ram, s.procs[q])
  {
    M.PhysicalInRam(s, pid, a);
    var ram' := s.ram[M.Physical(s.procs[pid], a).value := b];
    ViewAt(s.ram, s.procs[pid], a);
    ViewAt(ram', s.procs[pid], a);
    forall i | 0 <= i < |s.procs[q]| * PAGE_SIZE && (q != pid || i != a - PAGE_SIZE)
      ensures View(ram', s.procs[q])[i] == View(s.ram, s.procs[q])[i]
    {
      WriteElsewhere(s, pid, a, b, q, i);
    }
  }

  // Changing the view of one process changes one entry of the abstraction.
  lemma AbsMem(s: M.State, t: M.State, pid: nat, bytes: seq<Byte>)
    requires |s.stat| == NUM_PAGES == |t.stat| && t.procs.Keys == s.procs.Keys && pid in s.procs
    requires View(t.ram, t.procs[pid]) == bytes
    requires forall q :: q in s.procs && q != pid ==> View(t.ram, t.procs[q]) == View(s.ram, s.procs[q])
    ensures Abs(t).mem == Abs(s).mem[pid := bytes]
  {
  }

  lemma AbsAfterWrite(s: M.State, pid: nat, a: Word, b: Byte, p: nat)
    requires M.Inv(s) && pid in s.procs && M.Physical(s.procs[pid], a) == Some(p)
    ensures p < |s.ram| && Holds(View(s.ram, s.procs[pid]), a)
    ensures Abs(s.(ram := s.ram[p := b])).mem
         == Abs(s).mem[pid := View(s.ram, s.procs[pid])[a - PAGE_SIZE := b]]
  {
    ViewAfterWrite(s, pid, a, b, pid);
    forall q | q in s.procs && q != pid
      ensures View(s.ram[p := b], s.procs[q]) == View(s.ram, s.procs[q])
    {
      ViewAfterWrite(s, pid, a, b, q);
    }
    AbsMem(s, s.(ram := s.ram[p := b]), pid, View(s.ram, s.procs[pid])[a - PAGE_SIZE := b]);
  }

  lemma WriteRefines(s: M.State, pid: nat, a: Word, b: Byte)
    requires M.Inv(s) && pid in s.procs
    ensures var (t, out) := M.Apply(s, M.Write(pid, a, b));
      |t.stat| == NUM_PAGES && (Abs(t), out) == Apply(Abs(s), M.Write(pid, a, b))
  {
    ViewAt(s.ram, s.procs[pid], a);
    var p := M.Physical(s.procs[pid], a);
    if p.Some? { AbsAfterWrite(s, pid, a, b, p.value); }
  }

  lemma StepRefines(s: M.State, op: M.Op)
    requires M.Inv(s)
    ensures M.Inv(PerformPaged(s, op).0)
    ensures Abs(PerformPaged(s, op).0) == Perform(Abs(s), op).0
    ensures PerformPaged(s, op).1 == Perform(Abs(s), op).1
  {
    assert M.Valid(s, op) <==> Valid(Abs(s), op);
    if M.Valid(s, op) {
      M.StepKeepsInv(s, op);
      match op
      case Spawn(pid) => assert Abs(M.Apply(s, op).0).mem == Abs(s).mem[pid := []];
      case Alloc(pid, size) => AllocRefines(s, pid, size);
      case Read(pid, a) => ReadRefines(s, pid, a);
      case Write(pid, a, b) => WriteRefines(s, pid, a, b);
    }
  }

  lemma InitialRefines()
    ensures M.Inv(M.INITIAL) && Abs(M.INITIAL) == INITIAL
  {
    AllFree(M.INITIAL.stat, 0);
    assert Abs(M.INITIAL).mem == map[];
  }

  lemma {:induction false} AllFree(stat: seq<M.Frame>, i: nat)
    requires i <= |stat| <= NUM_PAGES && forall f :: 0 <= f < |stat| ==> stat[f].proc == 0
    ensures |M.FreeFrames(stat, i)| == |stat| - i
    decreases |stat| - i
  {
    if i < |stat| { AllFree(stat, i + 1); }
  }

  // Every run of allocations, reads and writes by any processes returns, call by
  // call, what the flat memories return.
  lemma {:induction false} RunRefines(ops: seq<M.Op>)
    ensures M.Inv(RunPaged(M.INITIAL, ops).0)
    ensures Abs(RunPaged(M.INITIAL, ops).0) == Run(INITIAL, ops).0
    ensures RunPaged(M.INITIAL, ops).1 == Run(INITIAL, ops).1
  {
    if ops == [] {
      InitialRefines();
    } else {
      RunRefines(ops[..|ops| - 1]);
      StepRefines(RunPaged(M.INITIAL, ops[..|ops| - 1]).0, ops[|ops| - 1]);
    }
  }

  // The frames of every allocation stay a chain numbered from 0, whatever comes later.
  lemma {:induction false} ChainsLast(s: M.State, ops: seq<M.Op>, k: nat)
    requires M.Inv(s) && k < |s.allocs|
    ensures M.Inv(RunPaged(s, ops).0) && s.allocs <= RunPaged(s, ops).0.allocs
    ensures M.Chain(RunPaged(s, ops).0.stat, s.allocs[k].frames, s.allocs[k].pid)
  {
    if ops != [] {
      ChainsLast(s, ops[..|ops| - 1], k);
      StepRefines(RunPaged(s, ops[..|ops| - 1]).0, ops[|ops| - 1]);
    }
  }

  /* ---------- Reads return the last write ---------- */

  // An earlier successful allocation of pid covers address a.
  ghost predicate Covered(ops: seq<M.Op>, outs: seq<M.Out>, pid: nat, a: nat)
    requires |ops| == |outs|
  {
    exists k :: 0 <= k < |ops| && Covers(ops[k], outs[k], pid, a)
  }

  predicate Covers(op: M.Op, out: M.Out, pid: nat, a: nat) {
    && op.Alloc? && op.pid == pid && out.Address? && out.a != 0
    && out.a <= a < out.a + M.NumPages(op.size) * PAGE_SIZE
  }

  // The byte of the last successful write of pid to a, or 0.
  function LastWrite(ops: seq<M.Op>, outs: seq<M.Out>, pid: nat, a: nat): Byte
    requires |ops| == |outs|
  {
    if ops == [] then 0
    else
      var n := |ops| - 1;
      if ops[n].Write? && ops[n].pid == pid && ops[n].a == a && outs[n] == M.Status(0) then ops[n].b
      else LastWrite(ops[..n], outs[..n], pid, a)
  }

  lemma {:induction false} RunLength(f: State, ops: seq<M.Op>)
    ensures |Run(f, ops).1| == |ops|
  {
    if ops != [] { RunLength(f, ops[..|ops| - 1]); }
  }

  ghost predicate Agrees(f: State, ops: seq<M.Op>, outs: seq<M.Out>, pid: nat, a: nat)
    requires |ops| == |outs|
  {
    && (Covered(ops, outs, pid, a) <==> pid in f.mem && Holds(f.mem[pid], a))
    && (pid in f.mem && Holds(f.mem[pid], a) ==> f.mem[pid][a - PAGE_SIZE] == LastWrite(ops, outs, pid, a))
  }

  lemma CoveredSnoc(ops: seq<M.Op>, outs: seq<M.Out>, op: M.Op, out: M.Out, pid: nat, a: nat)
    requires |ops| == |outs|
    ensures Covered(ops + [op], outs + [out], pid, a) <==> Covered(ops, outs, pid, a) || Covers(op, out, pid, a)
  {
    var ops', outs' := ops + [op], outs + [out];
    assert ops'[|ops|] == op && outs'[|ops|] == out;
    if k :| 0 <= k < |ops| && Covers(ops[k], outs[k], pid, a) { assert Covers(ops'[k], outs'[k], pid, a); }
  }

  lemma AgreesStep(f: State, ops: seq<M.Op>, outs: seq<M.Out>, op: M.Op, pid: nat, a: nat)
    requires |ops| == |outs| && Agrees(f, ops, outs, pid, a)
    requires !Covered(ops, outs, pid, a) ==> LastWrite(ops, outs, pid, a) == 0
    ensures var (g, out) := Perform(f, op);
      && Agrees(g, ops + [op], outs + [out], pid, a)
      && (!Covered(ops + [op], outs + [out], pid, a) ==> LastWrite(ops + [op], outs + [out], pid, a) == 0)
  {
    var (g, out) := Perform(f, op);
    CoveredSnoc(ops, outs, op, out, pid, a);
    assert (ops + [op])[..|ops|] == ops && (outs + [out])[..|ops|] == outs;
  }

  lemma {:induction false} RunAgrees(ops: seq<M.Op>, pid: nat, a: nat)
    ensures |Run(INITIAL, ops).1| == |ops|
    ensures Agrees(Run(INITIAL, ops).0, ops, Run(INITIAL, ops).1, pid, a)
    ensures !Covered(ops, Run(INITIAL, ops).1, pid, a) ==> LastWrite(ops, Run(INITIAL, ops).1, pid, a) == 0
  {
    if ops != [] {
      var n := |ops| - 1;
      RunAgrees(ops[..n], pid, a);
      AgreesStep(Run(INITIAL, ops[..n]).0, ops[..n], Run(INITIAL, ops[..n]).1, ops[n], pid, a);
      assert ops == ops[..n] + [ops[n]];
    }
  }

  lemma FlatRead(f: State, ops: seq<M.Op>, outs: seq<M.Out>, pid: nat, a: Word)
    requires |ops| == |outs| && Agrees(f, ops, outs, pid, a) && pid in f.mem
    ensures Perform(f, M.Read(pid, a)).1 ==
      M.Data(if Covered(ops, outs, pid, a) then Some(LastWrite(ops, outs, pid, a)) else None)
  {
  }

  lemma SamePids(s: M.State, pid: nat)
    requires |s.stat| == NUM_PAGES
    ensures pid in s.procs <==> pid in Abs(s).mem
  {
  }

  lemma FlatWrite(f: State, ops: seq<M.Op>, outs: seq<M.Out>, pid: nat, a: Word, b: Byte)
    requires |ops| == |outs| && Agrees(f, ops, outs, pid, a) && pid in f.mem
    ensures Perform(f, M.Write(pid, a, b)).1 == M.Status(if Covered(ops, outs, pid, a) then 0 else 1)
  {
  }

  // The paged memory, after any run: a write returns 0 exactly at addresses that an
  // earlier allocation of that process returned, and 1 at all others.
  lemma WriteSucceedsWhenAllocated(ops: seq<M.Op>, pid: nat, a: Word, b: Byte)
    ensures var (s, outs) := RunPaged(M.INITIAL, ops);
      && |outs| == |ops|
      && (pid in s.procs ==>
            PerformPaged(s, M.Write(pid, a, b)).1 == M.Status(if Covered(ops, outs, pid, a) then 0 else 1))
  {
    RunRefines(ops);
    RunAgrees(ops, pid, a);
    var s := RunPaged(M.INITIAL, ops).0;
    StepRefines(s, M.Write(pid, a, b));
    SamePids(s, pid);
    if pid in s.procs { FlatWrite(Run(INITIAL, ops).0, ops, Run(INITIAL, ops).1, pid, a, b); }
  }

  // The paged memory, after any run: a read succeeds exactly at addresses that an
  // earlier allocation of that process returned, and gives the byte the process
  // last wrote there, or 0.
  lemma ReadReturnsLastWrite(ops: seq<M.Op>, pid: nat, a: Word)
    ensures var (s, outs) := RunPaged(M.INITIAL, ops);
      && |outs| == |ops|
      && (pid in s.procs ==>
            PerformPaged(s, M.Read(pid, a)).1 ==
            M.Data(if Covered(ops, outs, pid, a) then Some(LastWrite(ops, outs, pid, a)) else None))
  {
    RunRefines(ops);
    RunAgrees(ops, pid, a);
    var s := RunPaged(M.INITIAL, ops).0;
    StepRefines(s, M.Read(pid, a));
    SamePids(s, pid);
    if pid in s.procs { FlatRead(Run(INITIAL, ops).0, ops, Run(INITIAL, ops).1, pid, a); }
  }
}

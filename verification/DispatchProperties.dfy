/** What the loader and the CPUs of src/os.c guarantee in every interleaving. */
module DispatchProperties {
  import opened ReadyQueue
  import opened Mlq
  import opened Dispatch
  import opened Census
  import opened DispatchInvariant
  import Slots

  /* ---------- Conservation ---------- */

  // Every loaded process is in exactly one place: a ready level, a CPU (which
  // includes being put back), the loader, the finished or the dropped ones.
  lemma Conservation(cfg: Config, run: seq<State>, acts: seq<Action>, k: nat, p: Pcb)
    requires ValidConfig(cfg) && IsRun(cfg, run, acts) && k < |run|
    ensures LoaderInRange(cfg, run[k].ld)
    ensures IsLoaded(cfg, run[k].ld, p) ==> Places(cfg, run[k], p) == 1
    ensures !IsLoaded(cfg, run[k].ld, p) ==> Places(cfg, run[k], p) == 0
  {
    RunInv(cfg, run, acts, k);
  }

  // The processes of one prio that are loaded and neither finished nor dropped.
  ghost function Live(s: State, l: nat): set<Pcb> {
    set p | p in s.lives && Occ(s.finished, p) == 0 && Occ(s.dropped, p) == 0 && p.prio == l
  }

  ghost function Elements(q: seq<Pcb>): set<Pcb> { set p | p in q }

  lemma {:induction false} DistinctElements(q: seq<Pcb>)
    requires forall p :: Occ(q, p) <= 1
    ensures |Elements(q)| == |q|
  {
    if q != [] {
      var front, last := q[..|q| - 1], q[|q| - 1];
      forall p ensures Occ(front, p) <= 1 { assert Occ(q, p) <= 1; }
      DistinctElements(front);
      assert Occ(q, last) <= 1;
      OccMember(front, last);
      assert q == front + [last];
      assert Elements(q) == Elements(front) + {last};
    }
  }

  // A process in transit is not in a level, and those in the level are live.
  lemma InLevelIsLive(cfg: Config, s: State, p: Pcb, x: Pcb)
    requires Counted(cfg, s) && p.prio < MAX_PRIO
    requires OnCpus(s.cpus, p) + AtLoader(cfg, s.ld, p) > 0
    ensures Occ(s.ready[p.prio], x) + One(p, x) <= 1
    ensures Occ(s.ready[p.prio], x) + One(p, x) > 0 ==> x in Live(s, p.prio)
  {
    InLevel(s.ready, p.prio, x);
    assert Places(cfg, s, x) == if x in s.lives then 1 else 0;
    OccMember(s.ready[p.prio], x);
    assert LevelOk(s.ready[p.prio], p.prio);
  }

  // A level never overflows while at most MAX_QUEUE_SIZE live processes share
  // its prio, since the process about to enter it is one of them.
  lemma RoomInLevel(cfg: Config, s: State, p: Pcb)
    requires Counted(cfg, s) && p.prio < MAX_PRIO && |Live(s, p.prio)| <= MAX_QUEUE_SIZE
    requires OnCpus(s.cpus, p) + AtLoader(cfg, s.ld, p) > 0
    ensures |s.ready[p.prio]| < MAX_QUEUE_SIZE
  {
    var q := s.ready[p.prio] + [p];
    forall x ensures Occ(q, x) <= 1 && (x in q ==> x in Live(s, p.prio)) {
      InLevelIsLive(cfg, s, p, x);
      OccAppend(s.ready[p.prio], p, x);
      OccMember(q, x);
    }
    DistinctElements(q);
    SubsetSize(Elements(q), Live(s, p.prio));
  }

  lemma {:induction false} SubsetSize<T>(a: set<T>, b: set<T>)
    requires a <= b
    ensures |a| <= |b|
  {
    if a != {} {
      var x :| x in a;
      SubsetSize(a - {x}, b - {x});
    }
  }

  lemma CpuDropsNothing(cfg: Config, s: State, c: nat)
    requires Inv(cfg, s) && CpuEnabled(s, c)
    requires FewLive(s)
    ensures CpuDo(cfg, s, c).dropped == s.dropped
  {
    if s.cpus[c].pc.Putting? && s.cpus[c].proc.Some? {
      OnCpu(s.cpus, c, s.cpus[c].proc.value);
      assert CpuOk(cfg, s, c);
      RoomInLevel(cfg, s, s.cpus[c].proc.value);
    }
  }

  lemma LoaderDropsNothing(cfg: Config, s: State)
    requires Inv(cfg, s) && LoaderEnabled(cfg, s)
    requires FewLive(s)
    ensures LoaderDo(cfg, s).dropped == s.dropped
  {
    if s.ld.pc.LAdd? { RoomInLevel(cfg, s, cfg.jobs[s.ld.i].pcb); }
  }

  lemma StepDropsNothing(cfg: Config, s: State, a: Action)
    requires Inv(cfg, s) && Enabled(cfg, s, a)
    requires FewLive(s)
    ensures Do(cfg, s, a).dropped == s.dropped
  {
    match a
    case CpuStep(c) => CpuDropsNothing(cfg, s, c);
    case LoaderStep => LoaderDropsNothing(cfg, s);
    case Tick =>
  }

  ghost predicate FewLive(s: State) { forall l :: 0 <= l < MAX_PRIO ==> |Live(s, l)| <= MAX_QUEUE_SIZE }

  lemma RunDropsNothing(cfg: Config, run: seq<State>, acts: seq<Action>, k: nat)
    requires ValidConfig(cfg) && IsRun(cfg, run, acts) && k < |acts| && FewLive(run[k])
    ensures run[k + 1].dropped == run[k].dropped
  {
    StepOfRun(cfg, run, acts, k);
    RunInv(cfg, run, acts, k);
    StepDropsNothing(cfg, run[k], acts[k]);
  }

  // While at most MAX_QUEUE_SIZE live processes share each prio, none is dropped.
  lemma {:induction false} NothingDropped(cfg: Config, run: seq<State>, acts: seq<Action>, k: nat)
    requires ValidConfig(cfg) && IsRun(cfg, run, acts) && k < |run|
    requires forall i :: 0 <= i < k ==> FewLive(run[i])
    ensures run[k].dropped == []
  {
    if k > 0 {
      NothingDropped(cfg, run, acts, k - 1);
      RunDropsNothing(cfg, run, acts, k - 1);
    }
  }

  ghost function OfPrio(cfg: Config, l: nat): set<Pcb> {
    set i | 0 <= i < |cfg.jobs| && cfg.jobs[i].pcb.prio == l :: cfg.jobs[i].pcb
  }

  lemma LiveIsConfigured(cfg: Config, s: State, l: nat)
    requires Counted(cfg, s)
    ensures |Live(s, l)| <= |OfPrio(cfg, l)|
  {
    forall p | p in Live(s, l) ensures p in OfPrio(cfg, l) {
      assert IsLoaded(cfg, s.ld, p);
      assert cfg.jobs[p.pid - 1].pcb == p;
    }
    SubsetSize(Live(s, l), OfPrio(cfg, l));
  }

  // In particular none is, if at most MAX_QUEUE_SIZE configured processes share each prio.
  lemma SmallConfigDropsNothing(cfg: Config, run: seq<State>, acts: seq<Action>, k: nat)
    requires ValidConfig(cfg) && IsRun(cfg, run, acts) && k < |run|
    requires forall l :: 0 <= l < MAX_PRIO ==> |OfPrio(cfg, l)| <= MAX_QUEUE_SIZE
    ensures run[k].dropped == []
  {
    forall i | 0 <= i < k ensures FewLive(run[i]) {
      RunInv(cfg, run, acts, i);
      forall l | 0 <= l < MAX_PRIO ensures |Live(run[i], l)| <= MAX_QUEUE_SIZE { LiveIsConfigured(cfg, run[i], l); }
    }
    NothingDropped(cfg, run, acts, k);
  }

  /* ---------- Execution ---------- */

  // Each instruction of a process is executed at most once, and in order.
  lemma ExactlyOnceInOrder(cfg: Config, run: seq<State>, acts: seq<Action>, k: nat, p: Pcb)
    requires ValidConfig(cfg) && IsRun(cfg, run, acts) && k < |run| && p in run[k].lives
    ensures run[k].lives[p].pc <= p.size
    ensures run[k].lives[p].log == seq(run[k].lives[p].pc, i => i)
  {
    RunInv(cfg, run, acts, k);
    assert LifeOk(p, run[k].lives[p]);
  }

  // A finished process is one of the configured ones.
  lemma FinishedIsConfigured(cfg: Config, s: State, p: Pcb)
    requires Counted(cfg, s) && Occ(s.finished, p) > 0
    ensures 1 <= p.pid <= |cfg.jobs| && cfg.jobs[p.pid - 1].pcb == p && IsLoaded(cfg, s.ld, p)
  {
    assert Places(cfg, s, p) == 1;
  }

  // A process executes at most one instruction in a slot, so one that has
  // finished has been around for at least as many slots as it has instructions.
  lemma FinishTakesItsTime(cfg: Config, run: seq<State>, acts: seq<Action>, k: nat, p: Pcb)
    requires ValidConfig(cfg) && IsRun(cfg, run, acts) && k < |run| && Occ(run[k].finished, p) > 0
    ensures p in run[k].lives && run[k].lives[p].pc == p.size
    ensures 1 <= p.pid <= |cfg.jobs|
    ensures Now(run[k]) >= Arrival(cfg, p.pid - 1) + p.size
  {
    RunInv(cfg, run, acts, k);
    var s := run[k];
    FinishedIsConfigured(cfg, s, p);
    assert FinishedOk(s, p);
    assert LifeOk(p, s.lives[p]);
  }

  // A process that is put back has used up exactly its quantum since dispatch.
  lemma PutBackAfterQuantum(cfg: Config, run: seq<State>, acts: seq<Action>, k: nat, c: nat)
    requires ValidConfig(cfg) && IsRun(cfg, run, acts) && k < |run|
    requires c < |run[k].cpus| && run[k].cpus[c].pc.Putting?
    ensures run[k].cpus[c].used == cfg.quantum >= 1
    ensures run[k].cpus[c].proc.Some? && run[k].cpus[c].proc.value in run[k].lives
    ensures Unfinished(run[k].cpus[c].proc.value, run[k].lives[run[k].cpus[c].proc.value])
  {
    RunInv(cfg, run, acts, k);
    assert CpuOk(cfg, run[k], c);
  }

  // Whenever a CPU is back at the head of its loop, it has called next_slot exactly
  // as often as it has taken the head; a CPU that leaves the loop does so in a round
  // without a call.
  lemma OneSlotPerRound(cfg: Config, run: seq<State>, acts: seq<Action>, k: nat, c: nat)
    requires ValidConfig(cfg) && IsRun(cfg, run, acts) && k < |run| && c < |run[k].cpus|
    ensures c < |run[k].slots.clients|
    ensures var v, calls := run[k].cpus[c], run[k].slots.clients[c].calls;
      && (v.pc.Top? ==> calls == v.rounds)
      && (v.pc.Halting? || v.pc.Halted? ==> calls + 1 == v.rounds)
  {
    RunInv(cfg, run, acts, k);
    assert CpuOk(cfg, run[k], c);
  }

  // The step is CPU c taking the head of the loop.
  predicate TakesHead(s: State, a: Action, c: nat) { a == CpuStep(c) && c < |s.cpus| && s.cpus[c].pc.Top? }

  // The step is CPU c calling next_slot.
  predicate CallsSlot(s: State, a: Action, c: nat) {
    a == CpuStep(c) && c < |s.cpus| && (s.cpus[c].pc.IdleSlot? || s.cpus[c].pc.SkipSlot? || s.cpus[c].pc.Ending?)
  }

  // How many of the steps from i to j are.
  function Heads(run: seq<State>, acts: seq<Action>, c: nat, i: nat, j: nat): nat
    requires i <= j <= |acts| < |run|
    decreases j - i
  {
    if i == j then 0 else (if TakesHead(run[i], acts[i], c) then 1 else 0) + Heads(run, acts, c, i + 1, j)
  }

  function SlotCalls(run: seq<State>, acts: seq<Action>, c: nat, i: nat, j: nat): nat
    requires i <= j <= |acts| < |run|
    decreases j - i
  {
    if i == j then 0 else (if CallsSlot(run[i], acts[i], c) then 1 else 0) + SlotCalls(run, acts, c, i + 1, j)
  }

  ghost predicate Counts(s: State, a: Action, s': State, c: nat)
    requires c < |s.cpus| && c < |s.slots.clients| && c < |s'.cpus| && c < |s'.slots.clients|
  {
    && s'.cpus[c].rounds == s.cpus[c].rounds + (if TakesHead(s, a, c) then 1 else 0)
    && s'.slots.clients[c].calls == s.slots.clients[c].calls + if CallsSlot(s, a, c) then 1 else 0
  }

  lemma TimerStepCounts(cfg: Config, s: State, c: nat)
    requires CpuEnabled(s, c) && CpuFrame(s, CpuDo(cfg, s, c), c) && AtTimer(s.cpus[c].pc)
    ensures Counts(s, CpuStep(c), CpuDo(cfg, s, c), c)
  {
  }

  lemma DataStepCounts(cfg: Config, s: State, c: nat)
    requires CpuEnabled(s, c) && CpuFrame(s, CpuDo(cfg, s, c), c) && !AtTimer(s.cpus[c].pc)
    ensures Counts(s, CpuStep(c), CpuDo(cfg, s, c), c)
  {
    DataStepFrame(cfg, s, c);
  }

  lemma StepCounts(cfg: Config, s: State, a: Action, s': State, c: nat)
    requires ProcessesOk(cfg, s) && ModesOk(cfg, s') && Enabled(cfg, s, a) && s' == Do(cfg, s, a) && c < |s.cpus|
    ensures Counts(s, a, s', c)
  {
    match a
    case CpuStep(d) =>
      CpuStepFrame(cfg, s, d);
      if d != c {
      } else if AtTimer(s.cpus[c].pc) {
        TimerStepCounts(cfg, s, c);
      } else {
        DataStepCounts(cfg, s, c);
      }
    case LoaderStep => LoaderStepFrame(cfg, s);
    case Tick =>
  }

  lemma RunStepCounts(cfg: Config, run: seq<State>, acts: seq<Action>, k: nat, c: nat)
    requires ValidConfig(cfg) && IsRun(cfg, run, acts) && k < |acts| && c < cfg.numCpus
    ensures c < |run[k].cpus| && c < |run[k].slots.clients| && c < |run[k + 1].cpus| && c < |run[k + 1].slots.clients|
    ensures Counts(run[k], acts[k], run[k + 1], c)
  {
    RunInv(cfg, run, acts, k);
    RunInv(cfg, run, acts, k + 1);
    StepOfRun(cfg, run, acts, k);
    StepCounts(cfg, run[k], acts[k], run[k + 1], c);
  }

  lemma RunHasCpus(cfg: Config, run: seq<State>, acts: seq<Action>, k: nat)
    requires ValidConfig(cfg) && IsRun(cfg, run, acts) && k < |run|
    ensures |run[k].cpus| == cfg.numCpus && |run[k].slots.clients| == cfg.numCpus + 1
  {
    RunInv(cfg, run, acts, k);
  }

  lemma {:induction false} RunCounts(cfg: Config, run: seq<State>, acts: seq<Action>, i: nat, j: nat, c: nat)
    requires ValidConfig(cfg) && IsRun(cfg, run, acts) && i <= j < |run| && c < cfg.numCpus
    ensures c < |run[i].cpus| && c < |run[i].slots.clients| && c < |run[j].cpus| && c < |run[j].slots.clients|
    ensures run[j].cpus[c].rounds == run[i].cpus[c].rounds + Heads(run, acts, c, i, j)
    ensures run[j].slots.clients[c].calls == run[i].slots.clients[c].calls + SlotCalls(run, acts, c, i, j)
    decreases j - i
  {
    if i == j {
      RunHasCpus(cfg, run, acts, i);
    } else {
      RunStepCounts(cfg, run, acts, i, c);
      RunCounts(cfg, run, acts, i + 1, j, c);
    }
  }

  // So between two visits of the head, it is taken as often as next_slot is called.
  lemma RoundsAreSlots(cfg: Config, run: seq<State>, acts: seq<Action>, i: nat, j: nat, c: nat)
    requires ValidConfig(cfg) && IsRun(cfg, run, acts) && i <= j < |run|
    requires c < |run[i].cpus| && run[i].cpus[c].pc.Top? && c < |run[j].cpus| && run[j].cpus[c].pc.Top?
    ensures Heads(run, acts, c, i, j) == SlotCalls(run, acts, c, i, j)
  {
    RunHasCpus(cfg, run, acts, i);
    RunCounts(cfg, run, acts, i, j, c);
    OneSlotPerRound(cfg, run, acts, i, c);
    OneSlotPerRound(cfg, run, acts, j, c);
  }

  lemma CpuKeepsFinished(cfg: Config, s: State, c: nat, p: Pcb)
    requires CpuEnabled(s, c) && Occ(s.finished, p) > 0
    ensures Occ(CpuDo(cfg, s, c).finished, p) > 0
  {
    FinishedGrows(cfg, s, c);
    if s.cpus[c].proc.Some? { OccAppend(s.finished, s.cpus[c].proc.value, p); }
  }

  lemma StepKeepsFinished(cfg: Config, s: State, a: Action, s': State, p: Pcb)
    requires Enabled(cfg, s, a) && s' == Do(cfg, s, a) && Occ(s.finished, p) > 0
    ensures Occ(s'.finished, p) > 0
  {
    match a
    case CpuStep(c) => CpuKeepsFinished(cfg, s, c, p);
    case LoaderStep => LoaderStepFrame(cfg, s);
    case Tick =>
  }

  lemma FinishedIsNowhereElse(cfg: Config, s: State, p: Pcb)
    requires Counted(cfg, s) && Occ(s.finished, p) > 0
    ensures Occ(s.finished, p) == 1
    ensures InReady(s.ready, p) == 0 && OnCpus(s.cpus, p) == 0 && Occ(s.dropped, p) == 0
  {
    assert Places(cfg, s, p) <= 1;
  }

  lemma RunKeepsFinished(cfg: Config, run: seq<State>, acts: seq<Action>, k: nat, p: Pcb)
    requires IsRun(cfg, run, acts) && k < |acts| && Occ(run[k].finished, p) > 0
    ensures Occ(run[k + 1].finished, p) > 0
  {
    StepOfRun(cfg, run, acts, k);
    StepKeepsFinished(cfg, run[k], acts[k], run[k + 1], p);
  }

  lemma {:induction false} StaysFinished(cfg: Config, run: seq<State>, acts: seq<Action>, i: nat, j: nat, p: Pcb)
    requires IsRun(cfg, run, acts) && i <= j < |run| && Occ(run[i].finished, p) > 0
    ensures Occ(run[j].finished, p) > 0
    decreases j - i
  {
    if i < j {
      RunKeepsFinished(cfg, run, acts, i, p);
      StaysFinished(cfg, run, acts, i + 1, j, p);
    }
  }

  // A finished process is never requeued, dispatched or dropped.
  lemma FinishedForGood(cfg: Config, run: seq<State>, acts: seq<Action>, i: nat, j: nat, p: Pcb)
    requires ValidConfig(cfg) && IsRun(cfg, run, acts) && i <= j < |run| && Occ(run[i].finished, p) > 0
    ensures Occ(run[j].finished, p) == 1
    ensures InReady(run[j].ready, p) == 0 && OnCpus(run[j].cpus, p) == 0 && Occ(run[j].dropped, p) == 0
  {
    StaysFinished(cfg, run, acts, i, j, p);
    RunInv(cfg, run, acts, j);
    FinishedIsNowhereElse(cfg, run[j], p);
  }

  /* ---------- Arrival ---------- */

  // The loader's nested loops add process i in slot max over j <= i of start_j + (i - j).
  lemma {:induction false} ArrivalLowerBound(cfg: Config, i: nat, j: nat)
    requires j <= i < |cfg.jobs|
    ensures cfg.jobs[j].start + (i - j) <= Arrival(cfg, i)
  {
    if j < i { ArrivalLowerBound(cfg, i - 1, j); }
  }

  lemma {:induction false} ArrivalAttained(cfg: Config, i: nat) returns (j: nat)
    requires i < |cfg.jobs|
    ensures j <= i && Arrival(cfg, i) == cfg.jobs[j].start + (i - j)
  {
    if Arrival(cfg, i) == cfg.jobs[i].start {
      j := i;
    } else {
      j := ArrivalAttained(cfg, i - 1);
    }
  }

  lemma ArrivalTimes(cfg: Config, run: seq<State>, acts: seq<Action>, k: nat, i: nat)
    requires ValidConfig(cfg) && IsRun(cfg, run, acts) && k < |run| && i < |run[k].arrivals|
    ensures i < |cfg.jobs|
    ensures exists j :: 0 <= j <= i && run[k].arrivals[i] == cfg.jobs[j].start + (i - j)
    ensures forall j :: 0 <= j <= i ==> cfg.jobs[j].start + (i - j) <= run[k].arrivals[i]
    ensures i > 0 ==> run[k].arrivals[i - 1] < run[k].arrivals[i]
  {
    RunInv(cfg, run, acts, k);
    var j := ArrivalAttained(cfg, i);
    forall j | 0 <= j <= i ensures cfg.jobs[j].start + (i - j) <= Arrival(cfg, i) { ArrivalLowerBound(cfg, i, j); }
  }

  /* ---------- Progress and completion ---------- */

  // Nothing but next_slot ever blocks a CPU or the loader.
  lemma OnlyNextSlotBlocks(cfg: Config, s: State)
    requires Inv(cfg, s)
    ensures forall c :: 0 <= c < |s.cpus| && !s.cpus[c].pc.InSlot? && !s.cpus[c].pc.Halted? ==> CpuEnabled(s, c)
    ensures !s.ld.pc.LSlotWait? && !s.ld.pc.LSlotNext? && !s.ld.pc.LHalted? ==> LoaderEnabled(cfg, s)
  {
    forall c | 0 <= c < |s.cpus| && !s.cpus[c].pc.InSlot? && !s.cpus[c].pc.Halted? ensures CpuEnabled(s, c) {
      assert CpuOk(cfg, s, c) && CpuModeOk(s.cpus[c].pc, s.slots.clients[c].mode);
      if s.cpus[c].proc.Some? { assert IsLoaded(cfg, s.ld, s.cpus[c].proc.value); }
    }
    if LoaderHolds(s.ld) { assert cfg.jobs[s.ld.i].pcb in s.lives; }
  }

  predicate DoneWithSlot(s: State, c: nat)
    requires c < |s.slots.clients|
  {
    var v := s.slots.clients[c];
    v.mode.Left? || (v.mode.Waiting? && v.calls == Now(s) + 1)
  }

  // A CPU that cannot step waits for the current slot to end, or has left.
  lemma StuckCpuWaits(cfg: Config, s: State, c: nat)
    requires ModesOk(cfg, s) && c < |s.cpus| && !CpuEnabled(s, c) && (s.cpus[c].pc.InSlot? || s.cpus[c].pc.Halted?)
    ensures DoneWithSlot(s, c)
  {
    assert Slots.ClientOk(Now(s), s.slots.clients[c]) && CpuModeOk(s.cpus[c].pc, s.slots.clients[c].mode);
  }

  lemma StuckLoaderWaits(cfg: Config, s: State)
    requires ModesOk(cfg, s) && !LoaderEnabled(cfg, s)
    requires s.ld.pc.LSlotWait? || s.ld.pc.LSlotNext? || s.ld.pc.LHalted?
    ensures DoneWithSlot(s, cfg.numCpus)
  {
    assert Slots.ClientOk(Now(s), s.slots.clients[cfg.numCpus]);
  }

  lemma AllDoneTicks(cfg: Config, s: State)
    requires forall c :: 0 <= c < |s.slots.clients| ==> DoneWithSlot(s, c)
    ensures Enabled(cfg, s, Tick)
  {
    forall c | 0 <= c < |s.slots.clients|
      ensures s.slots.clients[c].mode.Left? ||
        (s.slots.clients[c].mode.Waiting? && s.slots.clients[c].calls == s.slots.time + 1)
    {
      assert DoneWithSlot(s, c);
    }
  }

  lemma TickEnabled(cfg: Config, s: State)
    requires Inv(cfg, s) && !LoaderEnabled(cfg, s)
    requires forall c :: 0 <= c < |s.cpus| ==> !CpuEnabled(s, c)
    ensures Enabled(cfg, s, Tick)
  {
    OnlyNextSlotBlocks(cfg, s);
    StuckLoaderWaits(cfg, s);
    forall c | 0 <= c < |s.slots.clients| ensures DoneWithSlot(s, c) {
      if c < |s.cpus| { StuckCpuWaits(cfg, s, c); }
    }
    AllDoneTicks(cfg, s);
  }

  // As long as a CPU or the loader is still there, the system can take a step.
  lemma NeverStuck(cfg: Config, s: State)
    requires Inv(cfg, s)
    requires !s.ld.pc.LHalted? || exists c :: 0 <= c < |s.cpus| && !s.cpus[c].pc.Halted?
    ensures exists a :: Enabled(cfg, s, a)
  {
    if LoaderEnabled(cfg, s) {
      assert Enabled(cfg, s, LoaderStep);
    } else if c :| 0 <= c < |s.cpus| && CpuEnabled(s, c) {
      assert Enabled(cfg, s, CpuStep(c));
    } else {
      TickEnabled(cfg, s);
    }
  }

  // When all CPUs have stopped, no process was left behind: every configured
  // process was added, and has finished or been dropped by a full level.
  lemma NobodyLeftBehind(cfg: Config, run: seq<State>, acts: seq<Action>, k: nat, i: nat)
    requires ValidConfig(cfg) && IsRun(cfg, run, acts) && k < |run| && cfg.numCpus > 0
    requires forall c :: 0 <= c < |run[k].cpus| ==> run[k].cpus[c].pc.Halted?
    requires i < |cfg.jobs|
    ensures Occ(run[k].finished, cfg.jobs[i].pcb) + Occ(run[k].dropped, cfg.jobs[i].pcb) == 1
  {
    RunInv(cfg, run, acts, k);
    var s, p := run[k], cfg.jobs[i].pcb;
    assert CpuOk(cfg, s, 0);
    assert !SomeAttentive(s) && !JustAdded(cfg, s);
    NoneReady(s.ready, p);
    forall c | 0 <= c < |s.cpus| ensures s.cpus[c].proc.None? { assert CpuOk(cfg, s, c); }
    NoneOnCpus(s.cpus, p);
    assert IsLoaded(cfg, s.ld, p);
    assert Places(cfg, s, p) == 1;
  }

  // With at most MAX_QUEUE_SIZE processes per prio the simulator runs every
  // process to its end: all of its instructions, each once, in order.
  lemma EveryProcessRunsToItsEnd(cfg: Config, run: seq<State>, acts: seq<Action>, k: nat, i: nat)
    requires ValidConfig(cfg) && IsRun(cfg, run, acts) && k < |run| && cfg.numCpus > 0
    requires forall c :: 0 <= c < |run[k].cpus| ==> run[k].cpus[c].pc.Halted?
    requires forall l :: 0 <= l < MAX_PRIO ==> |OfPrio(cfg, l)| <= MAX_QUEUE_SIZE
    requires i < |cfg.jobs|
    ensures var p := cfg.jobs[i].pcb;
      && Occ(run[k].finished, p) == 1
      && p in run[k].lives
      && run[k].lives[p].log == seq(p.size, n => n)
      && Now(run[k]) >= Arrival(cfg, i) + p.size
  {
    var p := cfg.jobs[i].pcb;
    NobodyLeftBehind(cfg, run, acts, k, i);
    SmallConfigDropsNothing(cfg, run, acts, k);
    FinishTakesItsTime(cfg, run, acts, k, p);
    ExactlyOnceInOrder(cfg, run, acts, k, p);
  }
}

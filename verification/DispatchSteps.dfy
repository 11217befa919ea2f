/** How many steps the simulator takes: between two ticks every thread runs into
    next_slot or stops, so the configuration alone bounds the steps to any slot, and
    with it the steps after which all processes are over. */
module DispatchSteps {
  import opened ReadyQueue
  import opened Mlq
  import opened Dispatch
  import opened Census
  import opened DispatchInvariant
  import opened DispatchProgress
  import P = DispatchProperties
  import Slots

  /* ---------- Within one slot ---------- */

  // The steps a CPU can still take in this slot.
  function CpuRank(pc: CpuPc, calls: nat, now: nat): nat {
    match pc
    case InSlot => if calls == now then 8 else 0
    case Top => 7
    case Putting => 6
    case FetchIdle => 5
    case Fetch => 5
    case Recheck => 4
    case Running => 3
    case Executing(_) => 2
    case Halted => 0
    case _ => 1
  }

  function LoaderRank(pc: LdPc, calls: nat, now: nat): nat {
    match pc
    case LSlotNext => if calls == now then 5 else 0
    case LTop => 4
    case LSlotWait => if calls == now then 4 else 0
    case LWait => 3
    case LAdd => 2
    case LHalted => 0
    case _ => 1
  }

  // Of the first n CPUs.
  function CpuSteps(s: State, n: nat): nat
    requires n <= |s.cpus| && n <= |s.slots.clients|
  {
    if n == 0 then 0
    else CpuSteps(s, n - 1) + CpuRank(s.cpus[n - 1].pc, s.slots.clients[n - 1].calls, Now(s))
  }

  // Of all threads.
  function StepsLeft(cfg: Config, s: State): nat
    requires |s.cpus| == cfg.numCpus && |s.slots.clients| == cfg.numCpus + 1
  {
    CpuSteps(s, cfg.numCpus) + LoaderRank(s.ld.pc, s.slots.clients[cfg.numCpus].calls, Now(s))
  }

  // The most steps that fit in one slot, the tick included.
  function SlotSteps(cfg: Config): nat { 8 * cfg.numCpus + 6 }

  lemma {:induction false} CpuStepsBound(s: State, n: nat)
    requires n <= |s.cpus| && n <= |s.slots.clients|
    ensures CpuSteps(s, n) <= 8 * n
  {
    if n > 0 { CpuStepsBound(s, n - 1); }
  }

  lemma {:induction false} CpuStepsSame(s: State, s': State, n: nat)
    requires n <= |s.cpus| == |s'.cpus| && n <= |s.slots.clients| == |s'.slots.clients| && Now(s') == Now(s)
    requires forall d :: 0 <= d < n ==> s'.cpus[d] == s.cpus[d] && s'.slots.clients[d] == s.slots.clients[d]
    ensures CpuSteps(s', n) == CpuSteps(s, n)
  {
    if n > 0 { CpuStepsSame(s, s', n - 1); }
  }

  ghost predicate RankDrops(s: State, s': State, c: nat)
    requires CpuFrame(s, s', c)
  {
    CpuRank(s'.cpus[c].pc, s'.slots.clients[c].calls, Now(s)) < CpuRank(s.cpus[c].pc, s.slots.clients[c].calls, Now(s))
  }

  lemma {:induction false} CpuStepsDrop(s: State, s': State, c: nat, n: nat)
    requires CpuFrame(s, s', c) && RankDrops(s, s', c) && c < n <= |s.cpus| && n <= |s.slots.clients|
    ensures CpuSteps(s', n) < CpuSteps(s, n)
  {
    if c == n - 1 { CpuStepsSame(s, s', n - 1); } else { CpuStepsDrop(s, s', c, n - 1); }
  }

  lemma QueueRankDrops(cfg: Config, s: State, c: nat)
    requires OwnOk(cfg, s, c) && CpuFrame(s, CpuDo(cfg, s, c), c)
    requires s.cpus[c].pc.FetchIdle? || s.cpus[c].pc.Fetch? || s.cpus[c].pc.Putting?
    ensures RankDrops(s, CpuDo(cfg, s, c), c)
  {
  }

  lemma DataRankDrops(cfg: Config, s: State, c: nat)
    requires OwnOk(cfg, s, c) && CpuFrame(s, CpuDo(cfg, s, c), c)
    requires s.cpus[c].pc.Top? || s.cpus[c].pc.Recheck? || s.cpus[c].pc.Running? || s.cpus[c].pc.Executing?
    ensures RankDrops(s, CpuDo(cfg, s, c), c)
  {
  }

  lemma TimerRankDrops(cfg: Config, s: State, c: nat)
    requires OwnOk(cfg, s, c) && CpuFrame(s, CpuDo(cfg, s, c), c) && AtTimer(s.cpus[c].pc)
    ensures RankDrops(s, CpuDo(cfg, s, c), c)
  {
  }

  lemma CpuRankDrops(cfg: Config, s: State, c: nat)
    requires OwnOk(cfg, s, c) && CpuFrame(s, CpuDo(cfg, s, c), c)
    ensures RankDrops(s, CpuDo(cfg, s, c), c)
  {
    var pc := s.cpus[c].pc;
    if AtTimer(pc) {
      TimerRankDrops(cfg, s, c);
    } else if pc.FetchIdle? || pc.Fetch? || pc.Putting? {
      QueueRankDrops(cfg, s, c);
    } else {
      DataRankDrops(cfg, s, c);
    }
  }

  lemma LoaderRankDrops(cfg: Config, s: State)
    requires ModesOk(cfg, s) && LoaderEnabled(cfg, s)
    ensures var s' := LoaderDo(cfg, s);
      && s'.cpus == s.cpus && |s'.slots.clients| == |s.slots.clients| && Now(s') == Now(s)
      && (forall d :: 0 <= d < cfg.numCpus ==> s'.slots.clients[d] == s.slots.clients[d])
      && LoaderRank(s'.ld.pc, s'.slots.clients[cfg.numCpus].calls, Now(s)) <
           LoaderRank(s.ld.pc, s.slots.clients[cfg.numCpus].calls, Now(s))
  {
    assert Slots.ClientOk(Now(s), s.slots.clients[cfg.numCpus]);
  }

  lemma OwnHolds(cfg: Config, s: State, c: nat)
    requires ProcessesOk(cfg, s) && CpuEnabled(s, c)
    ensures OwnOk(cfg, s, c)
  {
    assert CpuOk(cfg, s, c) && Slots.ClientOk(Now(s), s.slots.clients[c]);
    assert CpuModeOk(s.cpus[c].pc, s.slots.clients[c].mode);
    if Got(s.ready).0.Some? { GotFromReady(s.ready, Got(s.ready).0.value); }
  }

  // Every step of a thread takes one of the steps left in the slot.
  lemma StepTakesOne(cfg: Config, s: State, a: Action)
    requires ProcessesOk(cfg, s) && Enabled(cfg, s, a) && a != Tick && ModesOk(cfg, Do(cfg, s, a))
    ensures StepsLeft(cfg, Do(cfg, s, a)) < StepsLeft(cfg, s)
  {
    match a
    case CpuStep(c) =>
      OwnHolds(cfg, s, c);
      CpuStepFrame(cfg, s, c);
      CpuRankDrops(cfg, s, c);
      CpuStepsDrop(s, CpuDo(cfg, s, c), c, cfg.numCpus);
    case LoaderStep =>
      LoaderRankDrops(cfg, s);
      CpuStepsSame(s, LoaderDo(cfg, s), cfg.numCpus);
  }

  lemma StepsLeftBound(cfg: Config, s: State)
    requires ModesOk(cfg, s)
    ensures StepsLeft(cfg, s) < SlotSteps(cfg)
  {
    CpuStepsBound(s, cfg.numCpus);
  }

  /* ---------- Whole runs ---------- */

  // k steps at most have led to a state: all those of the slots before, and those of
  // the current one that are not left.
  ghost predicate StepsBounded(cfg: Config, s: State, k: nat) {
    ModesOk(cfg, s) && k + StepsLeft(cfg, s) < (Now(s) + 1) * SlotSteps(cfg)
  }

  lemma RunModes(cfg: Config, run: seq<State>, acts: seq<Action>, k: nat)
    requires ValidConfig(cfg) && IsRun(cfg, run, acts) && k < |run|
    ensures ProcessesOk(cfg, run[k])
  {
    RunInv(cfg, run, acts, k);
  }

  lemma OneStepBounded(cfg: Config, run: seq<State>, acts: seq<Action>, k: nat)
    requires ValidConfig(cfg) && IsRun(cfg, run, acts) && k < |acts| && StepsBounded(cfg, run[k], k)
    ensures StepsBounded(cfg, run[k + 1], k + 1)
  {
    RunModes(cfg, run, acts, k);
    RunModes(cfg, run, acts, k + 1);
    StepOfRun(cfg, run, acts, k);
    if acts[k] == Tick {
      StepsLeftBound(cfg, run[k + 1]);
      TickChangesTime(cfg, run, acts, k);
      assert (Now(run[k]) + 2) * SlotSteps(cfg) == (Now(run[k]) + 1) * SlotSteps(cfg) + SlotSteps(cfg);
    } else {
      RunTakesNoTime(cfg, run, acts, k);
      StepTakesOne(cfg, run[k], acts[k]);
    }
  }

  lemma StartBounded(cfg: Config, run: seq<State>, acts: seq<Action>)
    requires ValidConfig(cfg) && IsRun(cfg, run, acts)
    ensures StepsBounded(cfg, run[0], 0)
  {
    RunModes(cfg, run, acts, 0);
    StepsLeftBound(cfg, run[0]);
    StartsAtZero(cfg, run, acts);
  }

  lemma StartsAtZero(cfg: Config, run: seq<State>, acts: seq<Action>)
    requires IsRun(cfg, run, acts)
    ensures Now(run[0]) == 0
  {
  }

  lemma {:induction false} BoundedUntil(cfg: Config, run: seq<State>, acts: seq<Action>, i: nat, k: nat)
    requires ValidConfig(cfg) && IsRun(cfg, run, acts) && i <= k < |run| && StepsBounded(cfg, run[i], i)
    ensures StepsBounded(cfg, run[k], k)
    decreases k - i
  {
    if i < k {
      OneStepBounded(cfg, run, acts, i);
      BoundedUntil(cfg, run, acts, i + 1, k);
    }
  }

  // In every interleaving, time is at least the number of steps taken, divided by
  // the most that fit in one slot.
  lemma StepsTakeTime(cfg: Config, run: seq<State>, acts: seq<Action>, k: nat)
    requires ValidConfig(cfg) && IsRun(cfg, run, acts) && k < |run|
    ensures k < (Now(run[k]) + 1) * SlotSteps(cfg)
  {
    StartBounded(cfg, run, acts);
    BoundedUntil(cfg, run, acts, 0, k);
  }

  lemma NoLonger(a: nat, b: nat, m: nat)
    requires a <= b
    ensures a * m <= b * m
  {
  }

  lemma TimeReached(t: nat, now: nat, m: nat, k: nat)
    requires (t + 1) * m <= k < (now + 1) * m
    ensures now > t
  {
    if now <= t { NoLonger(now + 1, t + 1, m); }
  }

  // From a number of steps on that the configuration alone determines, all processes
  // are finished or were dropped by a full level, whatever the interleaving ...
  lemma AllOverInSteps(cfg: Config, run: seq<State>, acts: seq<Action>, k: nat, i: nat)
    requires ValidConfig(cfg) && IsRun(cfg, run, acts) && k < |run| && cfg.numCpus > 0 && i < |cfg.jobs|
    requires k >= (LastArrival(cfg) + Load(cfg, |cfg.jobs|) + 1) * SlotSteps(cfg)
    ensures Occ(run[k].finished, cfg.jobs[i].pcb) + Occ(run[k].dropped, cfg.jobs[i].pcb) == 1
  {
    StepsTakeTime(cfg, run, acts, k);
    TimeReached(LastArrival(cfg) + Load(cfg, |cfg.jobs|), Now(run[k]), SlotSteps(cfg), k);
    AllOverInTime(cfg, run, acts, k, i);
  }

  // ... and with at most MAX_QUEUE_SIZE processes per prio, each has executed all of
  // its instructions, each once, in order.
  lemma AllRunInSteps(cfg: Config, run: seq<State>, acts: seq<Action>, k: nat, i: nat)
    requires ValidConfig(cfg) && IsRun(cfg, run, acts) && k < |run| && cfg.numCpus > 0 && i < |cfg.jobs|
    requires k >= (LastArrival(cfg) + Load(cfg, |cfg.jobs|) + 1) * SlotSteps(cfg)
    requires forall l :: 0 <= l < MAX_PRIO ==> |P.OfPrio(cfg, l)| <= MAX_QUEUE_SIZE
    ensures var p := cfg.jobs[i].pcb;
      && Occ(run[k].finished, p) == 1 && p in run[k].lives
      && run[k].lives[p].log == seq(p.size, n => n)
  {
    StepsTakeTime(cfg, run, acts, k);
    TimeReached(LastArrival(cfg) + Load(cfg, |cfg.jobs|), Now(run[k]), SlotSteps(cfg), k);
    AllRunInTime(cfg, run, acts, k, i);
  }
}

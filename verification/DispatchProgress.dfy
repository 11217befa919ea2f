/** How long the simulator takes: as long as some process is unfinished, every slot
    after the last arrival does some of the work there is, so that all of it is done
    by a slot that the configuration alone determines.  Nothing is assumed about
    idle CPUs, which need not stop. */
module DispatchProgress {
  import opened Options
  import opened ReadyQueue
  import opened Mlq
  import opened Dispatch
  import opened Census
  import opened DispatchInvariant
  import P = DispatchProperties
  import Slots

  /* ---------- The work that is left ---------- */

  predicate Over(s: State, p: Pcb) { Occ(s.finished, p) + Occ(s.dropped, p) > 0 }

  // The calls of run a process still needs, and one step to be found finished.
  function Left(s: State, p: Pcb): nat {
    if Over(s, p) || p !in s.lives then 0
    else if s.lives[p].runs >= Need(p) then 1
    else Need(p) - s.lives[p].runs + 1
  }

  // Of the first n processes.
  function Work(cfg: Config, s: State, n: nat): nat
    requires n <= |cfg.jobs|
  {
    if n == 0 then 0 else Work(cfg, s, n - 1) + Left(s, cfg.jobs[n - 1].pcb)
  }

  function Load(cfg: Config, n: nat): nat
    requires n <= |cfg.jobs|
  {
    if n == 0 then 0 else Load(cfg, n - 1) + Need(cfg.jobs[n - 1].pcb) + 1
  }

  lemma {:induction false} WorkBelowLoad(cfg: Config, s: State, n: nat)
    requires n <= |cfg.jobs|
    ensures Work(cfg, s, n) <= Load(cfg, n)
  {
    if n > 0 { WorkBelowLoad(cfg, s, n - 1); }
  }

  lemma {:induction false} WorkFalls(cfg: Config, s: State, s': State, n: nat)
    requires n <= |cfg.jobs|
    requires forall i :: 0 <= i < n ==> Left(s', cfg.jobs[i].pcb) <= Left(s, cfg.jobs[i].pcb)
    ensures Work(cfg, s', n) <= Work(cfg, s, n)
    ensures (exists i :: 0 <= i < n && Left(s', cfg.jobs[i].pcb) < Left(s, cfg.jobs[i].pcb)) ==>
      Work(cfg, s', n) < Work(cfg, s, n)
  {
    if n > 0 { WorkFalls(cfg, s, s', n - 1); }
  }

  lemma {:induction false} NoWork(cfg: Config, s: State, n: nat, i: nat)
    requires i < n <= |cfg.jobs| && Work(cfg, s, n) == 0
    ensures Left(s, cfg.jobs[i].pcb) == 0
  {
    if i < n - 1 { NoWork(cfg, s, n - 1, i); }
  }

  lemma {:induction false} SomeWork(cfg: Config, s: State, n: nat) returns (i: nat)
    requires n <= |cfg.jobs| && Work(cfg, s, n) > 0
    ensures i < n && Left(s, cfg.jobs[i].pcb) > 0
  {
    if Left(s, cfg.jobs[n - 1].pcb) > 0 { i := n - 1; } else { i := SomeWork(cfg, s, n - 1); }
  }

  /* ---------- Who will do it in this slot ---------- */

  predicate AllArrived(cfg: Config, s: State) { s.ld.i == |cfg.jobs| }

  ghost predicate SomeReady(s: State) { exists l :: 0 <= l < |s.ready| && s.ready[l] != [] }

  // CPU c still has its round in this slot before it, or is in it.
  predicate InRound(s: State, c: nat)
    requires c < |s.cpus| && c < |s.slots.clients|
  {
    match s.cpus[c].pc
    case Top => true
    case InSlot => s.slots.clients[c].calls == Now(s)
    case Putting => s.cpus[c].proc.Some?
    case Recheck => s.cpus[c].proc.Some?
    case Running => s.cpus[c].proc.Some?
    case Executing(_) => s.cpus[c].proc.Some?
    case FetchIdle => true
    case Fetch => true
    case _ => false
  }

  // CPU c will run or finish a process in this slot, or drop it.
  ghost predicate Will(s: State, c: nat)
    requires c < |s.cpus| && c < |s.slots.clients|
  {
    InRound(s, c) && (s.cpus[c].proc.Some? || SomeReady(s))
  }

  ghost predicate SomeoneWill(s: State) {
    exists c :: 0 <= c < |s.cpus| && c < |s.slots.clients| && Will(s, c)
  }

  // A step does some of the work, or leaves it to be done in this slot.
  ghost predicate Keeps(cfg: Config, s: State, s': State) {
    && Work(cfg, s', |cfg.jobs|) <= Work(cfg, s, |cfg.jobs|)
    && (Work(cfg, s', |cfg.jobs|) == Work(cfg, s, |cfg.jobs|) && SomeoneWill(s) ==> SomeoneWill(s'))
  }

  /* ---------- One step of a CPU ---------- */

  lemma SameWork(cfg: Config, s: State, s': State)
    requires s'.finished == s.finished && s'.dropped == s.dropped && s'.lives == s.lives
    ensures Work(cfg, s', |cfg.jobs|) == Work(cfg, s, |cfg.jobs|)
  {
    WorkFalls(cfg, s, s', |cfg.jobs|);
    WorkFalls(cfg, s', s, |cfg.jobs|);
  }

  // The process on a CPU is unfinished, and one of the configured ones.
  lemma OnCpuIsLive(cfg: Config, s: State, c: nat, p: Pcb) returns (i: nat)
    requires Counted(cfg, s) && c < |s.cpus| && s.cpus[c].proc == Some(p) && p in s.lives
    ensures i < |cfg.jobs| && cfg.jobs[i].pcb == p && !Over(s, p) && Left(s, p) > 0
  {
    OnlyOn(cfg, s, c, p);
    assert IsLoaded(cfg, s.ld, p);
    i := p.pid - 1;
  }

  ghost predicate OneMoreOver(s: State, s': State, p: Pcb) {
    && s'.lives == s.lives
    && ((s'.finished == s.finished + [p] && s'.dropped == s.dropped)
        || (s'.finished == s.finished && s'.dropped == s.dropped + [p]))
  }

  lemma LeftAfterOver(s: State, s': State, p: Pcb, q: Pcb)
    requires OneMoreOver(s, s', p)
    ensures Left(s', q) <= Left(s, q) && (q == p ==> Left(s', q) == 0)
  {
    OccAppend(s.finished, p, q);
    OccAppend(s.dropped, p, q);
  }

  // Finishing or dropping a process takes it off the work.
  lemma OverWork(cfg: Config, s: State, s': State, c: nat, p: Pcb)
    requires Counted(cfg, s) && c < |s.cpus| && s.cpus[c].proc == Some(p) && p in s.lives
    requires OneMoreOver(s, s', p)
    ensures Work(cfg, s', |cfg.jobs|) < Work(cfg, s, |cfg.jobs|)
  {
    var i := OnCpuIsLive(cfg, s, c, p);
    forall j | 0 <= j < |cfg.jobs| ensures Left(s', cfg.jobs[j].pcb) <= Left(s, cfg.jobs[j].pcb) {
      LeftAfterOver(s, s', p, cfg.jobs[j].pcb);
    }
    LeftAfterOver(s, s', p, p);
    assert Left(s', cfg.jobs[i].pcb) < Left(s, cfg.jobs[i].pcb);
    WorkFalls(cfg, s, s', |cfg.jobs|);
  }

  // So does running it.
  lemma RunWork(cfg: Config, s: State, s': State, c: nat, p: Pcb)
    requires Counted(cfg, s) && c < |s.cpus| && s.cpus[c].proc == Some(p) && p in s.lives
    requires s'.finished == s.finished && s'.dropped == s.dropped
    requires p in s'.lives && s'.lives == s.lives[p := s'.lives[p]]
    requires s'.lives[p].runs == s.lives[p].runs + 1 && Unfinished(p, s.lives[p])
    ensures Work(cfg, s', |cfg.jobs|) < Work(cfg, s, |cfg.jobs|)
  {
    var i := OnCpuIsLive(cfg, s, c, p);
    assert Left(s', cfg.jobs[i].pcb) < Left(s, cfg.jobs[i].pcb);
    WorkFalls(cfg, s, s', |cfg.jobs|);
  }

  // What the other CPUs will do is not affected while the ready queues stay.
  lemma OthersWill(s: State, s': State, c: nat)
    requires CpuFrame(s, s', c) && s'.ready == s.ready && SomeoneWill(s)
    requires Will(s, c) ==> c < |s'.cpus| && c < |s'.slots.clients| && Will(s', c)
    ensures SomeoneWill(s')
  {
    var d :| 0 <= d < |s.cpus| && d < |s.slots.clients| && Will(s, d);
    assert Will(s', d);
  }

  // A step that leaves the processes where they are.
  lemma IdleStepKeeps(cfg: Config, s: State, s': State, c: nat)
    requires CpuFrame(s, s', c) && s'.ready == s.ready
    requires s'.finished == s.finished && s'.dropped == s.dropped && s'.lives == s.lives
    requires Will(s, c) ==> Will(s', c)
    ensures Keeps(cfg, s, s')
  {
    SameWork(cfg, s, s');
    if SomeoneWill(s) { OthersWill(s, s', c); }
  }

  lemma FinishStep(cfg: Config, s: State, c: nat, p: Pcb)
    requires Counted(cfg, s) && CpuEnabled(s, c) && s.cpus[c].pc.Top? && s.cpus[c].proc == Some(p)
    requires s.lives[p].pc == p.size
    ensures Keeps(cfg, s, CpuDo(cfg, s, c))
  {
    OverWork(cfg, s, CpuDo(cfg, s, c), c, p);
  }

  lemma HeadStep(cfg: Config, s: State, c: nat)
    requires CpuEnabled(s, c) && s.cpus[c].pc.Top?
    requires s.cpus[c].proc.Some? ==> s.lives[s.cpus[c].proc.value].pc != s.cpus[c].proc.value.size
    ensures Keeps(cfg, s, CpuDo(cfg, s, c))
  {
    CpuStepFrame(cfg, s, c);
    IdleStepKeeps(cfg, s, CpuDo(cfg, s, c), c);
  }

  lemma TopStep(cfg: Config, s: State, c: nat)
    requires Counted(cfg, s) && CpuEnabled(s, c) && s.cpus[c].pc.Top?
    ensures Keeps(cfg, s, CpuDo(cfg, s, c))
  {
    if s.cpus[c].proc.Some? && s.lives[s.cpus[c].proc.value].pc == s.cpus[c].proc.value.size {
      FinishStep(cfg, s, c, s.cpus[c].proc.value);
    } else {
      HeadStep(cfg, s, c);
    }
  }

  lemma FetchStep(cfg: Config, s: State, c: nat)
    requires Counted(cfg, s) && ProcessesOk(cfg, s) && CpuEnabled(s, c)
    requires s.cpus[c].pc.Fetch? || s.cpus[c].pc.FetchIdle?
    ensures Keeps(cfg, s, CpuDo(cfg, s, c))
  {
    var s' := CpuDo(cfg, s, c);
    CpuStepFrame(cfg, s, c);
    assert CpuOk(cfg, s, c);
    SameWork(cfg, s, s');
    if Got(s.ready).0.Some? {
      assert Will(s', c);
    } else {
      assert !SomeReady(s);
      if SomeoneWill(s) { OthersWill(s, s', c); }
    }
  }

  lemma PutStep(cfg: Config, s: State, c: nat)
    requires Counted(cfg, s) && ProcessesOk(cfg, s) && CpuEnabled(s, c) && s.cpus[c].pc.Putting?
    ensures Keeps(cfg, s, CpuDo(cfg, s, c))
  {
    var s' := CpuDo(cfg, s, c);
    CpuStepFrame(cfg, s, c);
    assert CpuOk(cfg, s, c);
    var p := s.cpus[c].proc.value;
    if |s.ready[p.prio]| < MAX_QUEUE_SIZE {
      SameWork(cfg, s, s');
      assert s'.ready[p.prio] != [];
      assert Will(s', c);
    } else {
      OverWork(cfg, s, s', c, p);
    }
  }

  lemma RunStep(cfg: Config, s: State, c: nat)
    requires Counted(cfg, s) && ProcessesOk(cfg, s) && CpuEnabled(s, c)
    requires s.cpus[c].pc.Running? || s.cpus[c].pc.Executing?
    ensures Keeps(cfg, s, CpuDo(cfg, s, c))
  {
    var s' := CpuDo(cfg, s, c);
    CpuStepFrame(cfg, s, c);
    assert CpuOk(cfg, s, c);
    var p := s.cpus[c].proc.value;
    assert LifeOk(p, s.lives[p]);
    if s'.lives == s.lives {
      SameWork(cfg, s, s');
      if SomeoneWill(s) { OthersWill(s, s', c); }
    } else {
      RunWork(cfg, s, s', c, p);
    }
  }

  lemma TimerStepKeeps(cfg: Config, s: State, c: nat)
    requires CpuEnabled(s, c) && AtTimer(s.cpus[c].pc)
    ensures Keeps(cfg, s, CpuDo(cfg, s, c))
  {
    CpuStepFrame(cfg, s, c);
    IdleStepKeeps(cfg, s, CpuDo(cfg, s, c), c);
  }

  lemma RecheckStepKeeps(cfg: Config, s: State, c: nat)
    requires CpuEnabled(s, c) && s.cpus[c].pc.Recheck?
    ensures Keeps(cfg, s, CpuDo(cfg, s, c))
  {
    CpuStepFrame(cfg, s, c);
    IdleStepKeeps(cfg, s, CpuDo(cfg, s, c), c);
  }

  lemma CpuKeeps(cfg: Config, s: State, c: nat)
    requires Counted(cfg, s) && ProcessesOk(cfg, s) && CpuEnabled(s, c)
    ensures Keeps(cfg, s, CpuDo(cfg, s, c))
  {
    var pc := s.cpus[c].pc;
    if pc.Top? {
      TopStep(cfg, s, c);
    } else if pc.Fetch? || pc.FetchIdle? {
      FetchStep(cfg, s, c);
    } else if pc.Putting? {
      PutStep(cfg, s, c);
    } else if pc.Running? || pc.Executing? {
      RunStep(cfg, s, c);
    } else if pc.Recheck? {
      RecheckStepKeeps(cfg, s, c);
    } else {
      TimerStepKeeps(cfg, s, c);
    }
  }

  // Once all processes have arrived, the loader only watches the clock.
  lemma LoaderKeeps(cfg: Config, s: State)
    requires Counted(cfg, s) && ProcessesOk(cfg, s) && LoaderEnabled(cfg, s) && AllArrived(cfg, s)
    ensures Keeps(cfg, s, LoaderDo(cfg, s)) && AllArrived(cfg, LoaderDo(cfg, s))
  {
    var s' := LoaderDo(cfg, s);
    LoaderStepFrame(cfg, s);
    SameWork(cfg, s, s');
    if SomeoneWill(s) {
      var c :| 0 <= c < |s.cpus| && c < |s.slots.clients| && Will(s, c);
      assert Will(s', c);
    }
  }

  /* ---------- One slot ---------- */

  lemma {:induction false} FindOnCpu(cpus: seq<Cpu>, p: Pcb) returns (c: nat)
    requires OnCpus(cpus, p) > 0
    ensures c < |cpus| && cpus[c].proc == Some(p)
  {
    if cpus[|cpus| - 1].proc == Some(p) { c := |cpus| - 1; } else { c := FindOnCpu(cpus[..|cpus| - 1], p); }
  }

  // When a slot begins and there is work left, somebody will do some of it.
  lemma SlotBegins(cfg: Config, s: State)
    requires Inv(cfg, s) && Enabled(cfg, s, Tick) && AllArrived(cfg, s) && cfg.numCpus > 0
    requires Inv(cfg, Do(cfg, s, Tick)) && Work(cfg, s, |cfg.jobs|) > 0
    ensures SomeoneWill(Do(cfg, s, Tick))
  {
    var i := SomeWork(cfg, s, |cfg.jobs|);
    var p := cfg.jobs[i].pcb;
    LeftIsSomewhere(cfg, s, p);
    if OnCpus(s.cpus, p) > 0 {
      var c := FindOnCpu(s.cpus, p);
      HolderWill(cfg, s, c);
    } else {
      if !SomeReady(s) { NoneReady(s.ready, p); }
      SomeoneLooks(cfg, s);
    }
  }

  lemma LeftIsSomewhere(cfg: Config, s: State, p: Pcb)
    requires Counted(cfg, s) && AllArrived(cfg, s) && Left(s, p) > 0
    ensures OnCpus(s.cpus, p) + InReady(s.ready, p) > 0
  {
    assert Places(cfg, s, p) == 1;
  }

  lemma HolderWill(cfg: Config, s: State, c: nat)
    requires ProcessesOk(cfg, s) && Enabled(cfg, s, Tick) && c < |s.cpus| && s.cpus[c].proc.Some?
    ensures SomeoneWill(Do(cfg, s, Tick))
  {
    assert CpuOk(cfg, s, c);
    AtSlotStart(cfg, s, c);
    assert Will(Do(cfg, s, Tick), c);
  }

  // A CPU that has not stopped is inside next_slot when time advances.
  lemma AtSlotStart(cfg: Config, s: State, c: nat)
    requires ProcessesOk(cfg, s) && Enabled(cfg, s, Tick) && c < |s.cpus| && !s.cpus[c].pc.Halted?
    ensures InRound(Do(cfg, s, Tick), c)
    ensures s.cpus[c].pc.InSlot?
  {
    assert CpuModeOk(s.cpus[c].pc, s.slots.clients[c].mode);
  }

  lemma NotJustAdded(cfg: Config, s: State)
    requires ModesOk(cfg, s) && Enabled(cfg, s, Tick)
    ensures cfg.numCpus < |s.slots.clients| && !JustAdded(cfg, Do(cfg, s, Tick))
  {
    assert LoaderModeOk(s.ld.pc, s.slots.clients[cfg.numCpus].mode);
  }

  // A ready process is looked at: by a CPU that has not stopped.
  lemma SomeoneLooks(cfg: Config, s: State)
    requires ProcessesOk(cfg, s) && Enabled(cfg, s, Tick) && SomeReady(s)
    requires Covered(cfg, Do(cfg, s, Tick))
    ensures SomeoneWill(Do(cfg, s, Tick))
  {
    var s' := Do(cfg, s, Tick);
    NotJustAdded(cfg, s);
    assert SomeReady(s');
    var c :| 0 <= c < |s'.cpus| && Attentive(s'.cpus[c]);
    AtSlotStart(cfg, s, c);
    assert Will(s', c);
  }

  // When it ends, nobody is left who will.
  lemma SlotEnds(cfg: Config, s: State)
    requires ProcessesOk(cfg, s) && Enabled(cfg, s, Tick)
    ensures !SomeoneWill(s)
  {
    forall c | 0 <= c < |s.cpus| && c < |s.slots.clients| ensures !Will(s, c) {
      assert CpuModeOk(s.cpus[c].pc, s.slots.clients[c].mode);
    }
  }

  /* ---------- Whole runs ---------- */

  // The state with which the slot of run[k] began.
  function SlotStart(acts: seq<Action>, k: nat): (i: nat)
    requires k <= |acts|
    ensures i <= k && (i > 0 ==> acts[i - 1] == Tick)
  {
    if k == 0 || acts[k - 1] == Tick then k else SlotStart(acts, k - 1)
  }

  lemma OnlyTicksTakeTime(cfg: Config, s: State, a: Action)
    requires Enabled(cfg, s, a) && a != Tick
    ensures Now(Do(cfg, s, a)) == Now(s)
  {
    match a
    case CpuStep(c) => CpuStepFrame(cfg, s, c);
    case LoaderStep => LoaderStepFrame(cfg, s);
  }

  lemma RunTakesNoTime(cfg: Config, run: seq<State>, acts: seq<Action>, k: nat)
    requires IsRun(cfg, run, acts) && k < |acts| && acts[k] != Tick
    ensures Now(run[k + 1]) == Now(run[k])
  {
    StepOfRun(cfg, run, acts, k);
    OnlyTicksTakeTime(cfg, run[k], acts[k]);
  }

  lemma {:induction false} StartOfSlot(cfg: Config, run: seq<State>, acts: seq<Action>, k: nat)
    requires IsRun(cfg, run, acts) && k < |run|
    ensures Now(run[SlotStart(acts, k)]) == Now(run[k])
  {
    if k > 0 && acts[k - 1] != Tick {
      StartOfSlot(cfg, run, acts, k - 1);
      RunTakesNoTime(cfg, run, acts, k - 1);
    }
  }

  lemma StepKeepsWork(cfg: Config, s: State, a: Action)
    requires Counted(cfg, s) && ProcessesOk(cfg, s) && Enabled(cfg, s, a) && a != Tick && AllArrived(cfg, s)
    ensures Keeps(cfg, s, Do(cfg, s, a)) && AllArrived(cfg, Do(cfg, s, a))
  {
    match a
    case CpuStep(c) =>
      CpuStepFrame(cfg, s, c);
      CpuKeeps(cfg, s, c);
    case LoaderStep => LoaderKeeps(cfg, s);
  }

  lemma TickKeepsWork(cfg: Config, s: State)
    requires Inv(cfg, s) && Enabled(cfg, s, Tick) && AllArrived(cfg, s) && cfg.numCpus > 0
    requires Inv(cfg, Do(cfg, s, Tick))
    ensures var s' := Do(cfg, s, Tick);
      && AllArrived(cfg, s') && Work(cfg, s', |cfg.jobs|) == Work(cfg, s, |cfg.jobs|)
      && (Work(cfg, s', |cfg.jobs|) > 0 ==> SomeoneWill(s'))
  {
    SameWork(cfg, s, Do(cfg, s, Tick));
    if Work(cfg, s, |cfg.jobs|) > 0 { SlotBegins(cfg, s); }
  }

  // Within a slot: some work has been done since it began, or somebody still will.
  ghost predicate Working(cfg: Config, began: State, s: State) {
    && AllArrived(cfg, s)
    && Work(cfg, s, |cfg.jobs|) <= Work(cfg, began, |cfg.jobs|)
    && (Work(cfg, s, |cfg.jobs|) == Work(cfg, began, |cfg.jobs|) > 0 ==> SomeoneWill(s))
  }

  lemma WorkingStarts(cfg: Config, run: seq<State>, acts: seq<Action>, k: nat)
    requires ValidConfig(cfg) && IsRun(cfg, run, acts) && k < |acts| && acts[k] == Tick
    requires AllArrived(cfg, run[k]) && cfg.numCpus > 0
    ensures Working(cfg, run[k + 1], run[k + 1])
  {
    StepOfRun(cfg, run, acts, k);
    RunInv(cfg, run, acts, k);
    RunInv(cfg, run, acts, k + 1);
    TickKeepsWork(cfg, run[k]);
  }

  lemma WorkingGoesOn(cfg: Config, run: seq<State>, acts: seq<Action>, k: nat, began: State)
    requires ValidConfig(cfg) && IsRun(cfg, run, acts) && k < |acts| && acts[k] != Tick
    requires Working(cfg, began, run[k])
    ensures Working(cfg, began, run[k + 1])
  {
    StepOfRun(cfg, run, acts, k);
    RunInv(cfg, run, acts, k);
    StepKeepsWork(cfg, run[k], acts[k]);
  }

  lemma {:induction false} WorkingUntil(cfg: Config, run: seq<State>, acts: seq<Action>, i: nat, k: nat, began: State)
    requires ValidConfig(cfg) && IsRun(cfg, run, acts) && i <= k < |run| && Working(cfg, began, run[i])
    requires forall m :: i <= m < k ==> acts[m] != Tick
    ensures Working(cfg, began, run[k])
    decreases k - i
  {
    if i < k {
      WorkingGoesOn(cfg, run, acts, i, began);
      WorkingUntil(cfg, run, acts, i + 1, k, began);
    }
  }

  lemma {:induction false} NoTickSince(acts: seq<Action>, k: nat, m: nat)
    requires k <= |acts| && SlotStart(acts, k) <= m < k
    ensures acts[m] != Tick
  {
    if m < k - 1 { NoTickSince(acts, k - 1, m); }
  }

  lemma WithinSlot(cfg: Config, run: seq<State>, acts: seq<Action>, k: nat)
    requires ValidConfig(cfg) && IsRun(cfg, run, acts) && k < |run| && cfg.numCpus > 0
    requires SlotStart(acts, k) > 0 && AllArrived(cfg, run[SlotStart(acts, k) - 1])
    ensures Working(cfg, run[SlotStart(acts, k)], run[k])
  {
    var i := SlotStart(acts, k);
    WorkingStarts(cfg, run, acts, i - 1);
    forall m | i <= m < k ensures acts[m] != Tick { NoTickSince(acts, k, m); }
    WorkingUntil(cfg, run, acts, i, k, run[i]);
  }

  // A slot that begins with work left does some of it before it ends.
  lemma EverySlotWorks(cfg: Config, run: seq<State>, acts: seq<Action>, k: nat)
    requires ValidConfig(cfg) && IsRun(cfg, run, acts) && k < |acts| && cfg.numCpus > 0
    requires acts[k] == Tick && SlotStart(acts, k) > 0 && AllArrived(cfg, run[SlotStart(acts, k) - 1])
    ensures var n, began := |cfg.jobs|, run[SlotStart(acts, k)];
      Work(cfg, began, n) == 0 || Work(cfg, run[k], n) < Work(cfg, began, n)
  {
    WithinSlot(cfg, run, acts, k);
    RunInv(cfg, run, acts, k);
    StepOfRun(cfg, run, acts, k);
    SlotEnds(cfg, run[k]);
  }

  // The slot in which the last process arrives.
  function LastArrival(cfg: Config): nat
    requires cfg.jobs != []
  {
    Arrival(cfg, |cfg.jobs| - 1)
  }

  lemma {:induction false} ArrivalGrows(cfg: Config, i: nat, j: nat)
    requires i <= j < |cfg.jobs|
    ensures Arrival(cfg, i) <= Arrival(cfg, j)
  {
    if i < j { ArrivalGrows(cfg, i, j - 1); }
  }

  lemma LoaderIsOnTime(cfg: Config, ld: Loader, v: Slots.Client, now: nat)
    requires LoaderInRange(cfg, ld) && ld.i < |cfg.jobs| && LoaderClockOk(cfg, ld, v.calls)
    requires Slots.ClientOk(now, v) && LoaderModeOk(ld.pc, v.mode)
    ensures now <= Arrival(cfg, ld.i)
  {
  }

  lemma AfterLastArrival(cfg: Config, s: State)
    requires ModesOk(cfg, s) && ArrivalsOk(cfg, s) && cfg.jobs != [] && Now(s) > LastArrival(cfg)
    ensures AllArrived(cfg, s)
  {
    if s.ld.i < |cfg.jobs| {
      assert Slots.ClientOk(Now(s), s.slots.clients[cfg.numCpus]);
      LoaderIsOnTime(cfg, s.ld, s.slots.clients[cfg.numCpus], Now(s));
      ArrivalGrows(cfg, s.ld.i, |cfg.jobs| - 1);
    }
  }

  lemma TickChangesTime(cfg: Config, run: seq<State>, acts: seq<Action>, i: nat)
    requires IsRun(cfg, run, acts) && i < |acts| && acts[i] == Tick
    ensures Now(run[i + 1]) == Now(run[i]) + 1 && run[i + 1].ld == run[i].ld
    ensures Work(cfg, run[i + 1], |cfg.jobs|) == Work(cfg, run[i], |cfg.jobs|)
  {
    StepOfRun(cfg, run, acts, i);
    SameWork(cfg, run[i], run[i + 1]);
  }

  lemma StartArrived(cfg: Config, run: seq<State>, acts: seq<Action>, k: nat)
    requires ValidConfig(cfg) && IsRun(cfg, run, acts) && k < |run|
    requires cfg.jobs != [] && Now(run[k]) > LastArrival(cfg)
    ensures var i := SlotStart(acts, k);
      && i > 0 && AllArrived(cfg, run[i - 1])
      && Now(run[i]) == Now(run[k]) && Now(run[i - 1]) == Now(run[k]) - 1
      && Work(cfg, run[i], |cfg.jobs|) == Work(cfg, run[i - 1], |cfg.jobs|)
  {
    var i := SlotStart(acts, k);
    StartOfSlot(cfg, run, acts, k);
    RunInv(cfg, run, acts, i);
    AfterLastArrival(cfg, run[i]);
    if i > 0 { TickChangesTime(cfg, run, acts, i - 1); }
  }

  predicate Bounded(cfg: Config, s: State)
    requires cfg.jobs != []
  {
    var work := Work(cfg, s, |cfg.jobs|);
    work == 0 || work + (Now(s) - LastArrival(cfg) - 1) <= Load(cfg, |cfg.jobs|)
  }

  lemma NextSlotBounded(cfg: Config, run: seq<State>, acts: seq<Action>, i: nat)
    requires ValidConfig(cfg) && IsRun(cfg, run, acts) && i < |acts| && acts[i] == Tick && cfg.numCpus > 0
    requires cfg.jobs != [] && Now(run[i]) > LastArrival(cfg) && Bounded(cfg, run[SlotStart(acts, i)])
    ensures Bounded(cfg, run[i + 1])
  {
    StartArrived(cfg, run, acts, i);
    WithinSlot(cfg, run, acts, i);
    EverySlotWorks(cfg, run, acts, i);
    TickChangesTime(cfg, run, acts, i);
  }

  // In every slot after the last arrival, the work left is less by the number of
  // slots that have passed since.
  lemma {:induction false} WorkBound(cfg: Config, run: seq<State>, acts: seq<Action>, k: nat)
    requires ValidConfig(cfg) && IsRun(cfg, run, acts) && k < |run| && cfg.numCpus > 0
    requires cfg.jobs != [] && Now(run[k]) > LastArrival(cfg)
    ensures Bounded(cfg, run[k])
    decreases k
  {
    var i := SlotStart(acts, k);
    StartArrived(cfg, run, acts, k);
    WithinSlot(cfg, run, acts, k);
    if Now(run[i - 1]) > LastArrival(cfg) {
      StartOfSlot(cfg, run, acts, i - 1);
      WorkBound(cfg, run, acts, SlotStart(acts, i - 1));
      NextSlotBounded(cfg, run, acts, i - 1);
    } else {
      WorkBelowLoad(cfg, run[i], |cfg.jobs|);
    }
  }

  // All processes are finished, or were dropped by a full level, from the slot on
  // that follows the last arrival by the number of calls of run they need in all and
  // one slot each, whatever the interleaving, and although idle CPUs go on.
  lemma AllOverInTime(cfg: Config, run: seq<State>, acts: seq<Action>, k: nat, i: nat)
    requires ValidConfig(cfg) && IsRun(cfg, run, acts) && k < |run| && cfg.numCpus > 0
    requires i < |cfg.jobs| && Now(run[k]) > LastArrival(cfg) + Load(cfg, |cfg.jobs|)
    ensures Occ(run[k].finished, cfg.jobs[i].pcb) + Occ(run[k].dropped, cfg.jobs[i].pcb) == 1
  {
    var s, p := run[k], cfg.jobs[i].pcb;
    RunInv(cfg, run, acts, k);
    WorkBound(cfg, run, acts, k);
    NoWork(cfg, s, |cfg.jobs|, i);
    AfterLastArrival(cfg, s);
    assert IsLoaded(cfg, s.ld, p);
    assert Places(cfg, s, p) == 1;
  }

  // With at most MAX_QUEUE_SIZE processes per prio, each of them has by then executed
  // all of its instructions, each once, in order.
  lemma AllRunInTime(cfg: Config, run: seq<State>, acts: seq<Action>, k: nat, i: nat)
    requires ValidConfig(cfg) && IsRun(cfg, run, acts) && k < |run| && cfg.numCpus > 0
    requires i < |cfg.jobs| && Now(run[k]) > LastArrival(cfg) + Load(cfg, |cfg.jobs|)
    requires forall l :: 0 <= l < MAX_PRIO ==> |P.OfPrio(cfg, l)| <= MAX_QUEUE_SIZE
    ensures var p := cfg.jobs[i].pcb;
      && Occ(run[k].finished, p) == 1 && p in run[k].lives
      && run[k].lives[p].log == seq(p.size, n => n)
  {
    AllOverInTime(cfg, run, acts, k, i);
    P.SmallConfigDropsNothing(cfg, run, acts, k);
    P.FinishTakesItsTime(cfg, run, acts, k, cfg.jobs[i].pcb);
    P.ExactlyOnceInOrder(cfg, run, acts, k, cfg.jobs[i].pcb);
  }
}

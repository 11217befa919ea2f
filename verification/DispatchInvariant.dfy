/** The inductive invariant of the loader and the CPUs. */
module DispatchInvariant {
  import opened Options
  import opened ReadyQueue
  import opened Mlq
  import opened Dispatch
  import opened Census
  import Slots

  /* ---------- Threads and the timer ---------- */

  predicate CpuModeOk(pc: CpuPc, m: Slots.Mode) {
    (m.Waiting? <==> pc.InSlot?) && (m.Left? <==> pc.Halted?)
  }

  predicate LoaderModeOk(pc: LdPc, m: Slots.Mode) {
    (m.Waiting? <==> pc.LSlotWait? || pc.LSlotNext?) && (m.Left? <==> pc.LHalted?)
  }

  // CPU c is client c of the timer, the loader the last one.
  ghost predicate ModesOk(cfg: Config, s: State) {
    && |s.cpus| == cfg.numCpus
    && |s.slots.clients| == cfg.numCpus + 1
    && Slots.Inv(s.slots)
    && (forall c :: 0 <= c < |s.cpus| ==> CpuModeOk(s.cpus[c].pc, s.slots.clients[c].mode))
    && LoaderModeOk(s.ld.pc, s.slots.clients[cfg.numCpus].mode)
  }

  // What a step of CPU c leaves alone.
  ghost predicate CpuFrame(s: State, s': State, c: nat) {
    && c < |s.cpus| && c < |s.slots.clients|
    && |s'.cpus| == |s.cpus| && |s'.slots.clients| == |s.slots.clients|
    && (forall d :: 0 <= d < |s.cpus| && d != c ==> s'.cpus[d] == s.cpus[d])
    && (forall d :: 0 <= d < |s.slots.clients| && d != c ==> s'.slots.clients[d] == s.slots.clients[d])
    && s'.slots.time == s.slots.time
    && s'.ld == s.ld && s'.done == s.done && s'.arrivals == s.arrivals
    && s'.lives.Keys == s.lives.Keys
    && (forall p :: p in s.lives && s.cpus[c].proc != Some(p) ==> s'.lives[p] == s.lives[p])
  }

  predicate AtTimer(pc: CpuPc) { pc.IdleSlot? || pc.SkipSlot? || pc.Ending? || pc.InSlot? || pc.Halting? }

  lemma TimerStepFrame(cfg: Config, s: State, c: nat)
    requires CpuEnabled(s, c) && AtTimer(s.cpus[c].pc)
    ensures CpuFrame(s, CpuDo(cfg, s, c), c) && CpuDo(cfg, s, c).lives == s.lives
  {
  }

  lemma DataStepFrame(cfg: Config, s: State, c: nat)
    requires CpuEnabled(s, c) && !AtTimer(s.cpus[c].pc)
    ensures CpuFrame(s, CpuDo(cfg, s, c), c) && CpuDo(cfg, s, c).slots == s.slots
  {
  }

  lemma CpuStepFrame(cfg: Config, s: State, c: nat)
    requires CpuEnabled(s, c)
    ensures CpuFrame(s, CpuDo(cfg, s, c), c)
  {
    if AtTimer(s.cpus[c].pc) { TimerStepFrame(cfg, s, c); } else { DataStepFrame(cfg, s, c); }
  }

  lemma CpuKeepsModes(cfg: Config, s: State, s': State, c: nat)
    requires ModesOk(cfg, s) && CpuFrame(s, s', c)
    requires CpuModeOk(s'.cpus[c].pc, s'.slots.clients[c].mode) && Slots.ClientOk(Now(s), s'.slots.clients[c])
    ensures ModesOk(cfg, s')
  {
  }

  /* ---------- One process ---------- */

  // How often run is called on a process until it is found finished: a program of
  // no instructions is dispatched once.
  function Need(p: Pcb): nat { if p.size == 0 then 1 else p.size }

  // Executed exactly once, in order, and never more than one instruction a slot.
  predicate LifeOk(p: Pcb, l: Life) {
    && l.pc <= p.size
    && (if p.size == 0 then l.runs <= 1 else l.runs == l.pc)
    && |l.log| == l.pc
    && (forall k :: 0 <= k < l.pc ==> l.log[k] == k)
    && l.arrival + l.pc <= l.freeAt
  }

  predicate Unfinished(p: Pcb, l: Life) { l.runs < Need(p) }

  /* ---------- One CPU ---------- */

  // What is left of a quantum of which some has been used.
  predicate LeftOk(quantum: int, v: Cpu) { v.used + v.left == quantum && (quantum >= 1 ==> v.left >= 0) }

  predicate QuantumOk(quantum: int, v: Cpu) {
    match v.pc
    case Top => v.used >= 1 && LeftOk(quantum, v)
    case Ending => v.used >= 1 && LeftOk(quantum, v)
    case InSlot => v.used >= 1 && LeftOk(quantum, v)
    case Putting => v.used >= 1 && v.used == quantum && v.left == 0
    case Recheck => v.left == 0 || (v.used >= 1 && LeftOk(quantum, v))
    case Running => v.used >= 0 && LeftOk(quantum, v) && (quantum >= 1 ==> v.left >= 1)
    case Executing(_) => v.used >= 0 && LeftOk(quantum, v) && (quantum >= 1 ==> v.left >= 1)
    case _ => false
  }

  predicate HoldsOk(quantum: int, v: Cpu, calls: nat, p: Pcb, l: Life) {
    && QuantumOk(quantum, v)
    && (v.pc.Putting? || v.pc.Recheck? || v.pc.Running? ==> Unfinished(p, l))
    && (v.pc.Executing? ==> v.pc.at == l.pc < p.size)
    && (v.pc.Putting? ==> l.pc < p.size)
    && l.freeAt <= (if v.pc.Ending? then calls + 1 else calls)
  }

  predicate CpuOk(cfg: Config, s: State, c: nat)
    requires c < |s.cpus| && c < |s.slots.clients|
  {
    var v := s.cpus[c];
    var calls := s.slots.clients[c].calls;
    && v.rounds == calls + (if v.pc.Top? || v.pc.InSlot? then 0 else 1)
    && (v.pc.Halting? || v.pc.Halted? ==> s.done)
    && match v.proc
       case None => v.left == 0 && !v.pc.Putting? && !v.pc.Running? && !v.pc.Executing?
       case Some(p) => p in s.lives && HoldsOk(cfg.quantum, v, calls, p, s.lives[p])
  }

  /* ---------- Processes elsewhere ---------- */

  predicate ReadyOk(s: State, p: Pcb) {
    p in s.lives && Unfinished(p, s.lives[p]) && s.lives[p].freeAt <= Now(s)
  }

  predicate FinishedOk(s: State, p: Pcb) {
    p in s.lives && s.lives[p].pc == p.size && s.lives[p].freeAt <= Now(s)
  }

  ghost predicate ProcessesOk(cfg: Config, s: State) {
    && ModesOk(cfg, s)
    && (forall c :: 0 <= c < |s.cpus| ==> CpuOk(cfg, s, c))
    && (forall p :: p in s.lives ==> LifeOk(p, s.lives[p]))
    && (forall p :: InReady(s.ready, p) > 0 ==> ReadyOk(s, p))
    && (forall p :: Occ(s.finished, p) > 0 ==> FinishedOk(s, p))
    && (LoaderHolds(s.ld) && s.ld.i < |cfg.jobs| ==>
          cfg.jobs[s.ld.i].pcb in s.lives && s.lives[cfg.jobs[s.ld.i].pcb] == Life(0, 0, [], 0, 0))
    && (s.done <==> s.ld.pc.LDetach? || s.ld.pc.LHalted?)
  }

  // The process on CPU c is nowhere else.
  lemma OnlyOn(cfg: Config, s: State, c: nat, p: Pcb)
    requires Counted(cfg, s) && c < |s.cpus| && s.cpus[c].proc == Some(p)
    ensures InReady(s.ready, p) == 0 && Occ(s.finished, p) == 0 && Occ(s.dropped, p) == 0
    ensures LoaderHolds(s.ld) ==> cfg.jobs[s.ld.i].pcb != p
    ensures forall d :: 0 <= d < |s.cpus| && d != c ==> s.cpus[d].proc != Some(p)
  {
    assert Places(cfg, s, p) <= 1;
    OnCpu(s.cpus, c, p);
    forall d | 0 <= d < |s.cpus| && d != c ensures s.cpus[d].proc != Some(p) {
      OnTwoCpus(s.cpus, c, d, p);
    }
  }

  lemma GotFromReady(ls: Levels, p: Pcb)
    requires Got(ls).0 == Some(p)
    ensures InReady(ls, p) > 0
  {
    GotMoves(ls, p);
  }

  /* ---------- CPU steps ---------- */

  lemma OwnMode(cfg: Config, s: State, c: nat)
    requires ModesOk(cfg, s) && CpuEnabled(s, c)
    requires s.cpus[c].proc.Some? || (!s.cpus[c].pc.Putting? && !s.cpus[c].pc.Running? && !s.cpus[c].pc.Executing?)
    ensures var s' := CpuDo(cfg, s, c);
      CpuModeOk(s'.cpus[c].pc, s'.slots.clients[c].mode) && Slots.ClientOk(Now(s), s'.slots.clients[c])
  {
    assert Slots.ClientOk(s.slots.time, s.slots.clients[c]);
    assert CpuModeOk(s.cpus[c].pc, s.slots.clients[c].mode);
  }

  // What a CPU knows when it takes a step.
  predicate OwnOk(cfg: Config, s: State, c: nat) {
    && CpuEnabled(s, c) && CpuOk(cfg, s, c)
    && Slots.ClientOk(Now(s), s.slots.clients[c]) && CpuModeOk(s.cpus[c].pc, s.slots.clients[c].mode)
    && (s.cpus[c].proc.Some? ==> LifeOk(s.cpus[c].proc.value, s.lives[s.cpus[c].proc.value]))
    && (Got(s.ready).0.Some? ==> ReadyOk(s, Got(s.ready).0.value))
  }

  lemma OwnTop(cfg: Config, s: State, c: nat)
    requires OwnOk(cfg, s, c) && s.cpus[c].pc.Top?
    ensures CpuOk(cfg, CpuDo(cfg, s, c), c)
  {
  }

  lemma OwnQueue(cfg: Config, s: State, c: nat)
    requires OwnOk(cfg, s, c) && (s.cpus[c].pc.FetchIdle? || s.cpus[c].pc.Fetch? || s.cpus[c].pc.Putting?)
    ensures CpuOk(cfg, CpuDo(cfg, s, c), c)
  {
  }

  lemma OwnRun(cfg: Config, s: State, c: nat)
    requires OwnOk(cfg, s, c) && (s.cpus[c].pc.Recheck? || s.cpus[c].pc.Running? || s.cpus[c].pc.Executing?)
    ensures CpuOk(cfg, CpuDo(cfg, s, c), c)
  {
  }

  lemma OwnStep(cfg: Config, s: State, c: nat)
    requires OwnOk(cfg, s, c)
    ensures CpuOk(cfg, CpuDo(cfg, s, c), c)
  {
    var pc := s.cpus[c].pc;
    if pc.Top? {
      OwnTop(cfg, s, c);
    } else if pc.FetchIdle? || pc.Fetch? || pc.Putting? {
      OwnQueue(cfg, s, c);
    } else if pc.Recheck? || pc.Running? || pc.Executing? {
      OwnRun(cfg, s, c);
    }
  }

  lemma OtherCpu(cfg: Config, s: State, s': State, c: nat, d: nat)
    requires Counted(cfg, s) && CpuFrame(s, s', c) && d < |s.cpus| && d != c
    requires d < |s.slots.clients| && CpuOk(cfg, s, d)
    ensures CpuOk(cfg, s', d)
  {
    if s.cpus[c].proc.Some? { OnlyOn(cfg, s, c, s.cpus[c].proc.value); }
    if s.cpus[d].proc.Some? { assert s.cpus[d].proc.value in s'.lives.Keys; }
  }

  lemma OwnLife(cfg: Config, s: State, c: nat, p: Pcb)
    requires CpuEnabled(s, c) && CpuOk(cfg, s, c) && s.cpus[c].proc == Some(p) && LifeOk(p, s.lives[p])
    requires Slots.ClientOk(Now(s), s.slots.clients[c]) && CpuModeOk(s.cpus[c].pc, s.slots.clients[c].mode)
    ensures LifeOk(p, CpuDo(cfg, s, c).lives[p])
  {
  }

  // A ready process was ready before, or is put back by this step.
  lemma ReadyComesFrom(cfg: Config, s: State, c: nat, p: Pcb)
    requires CpuEnabled(s, c) && InReady(CpuDo(cfg, s, c).ready, p) > 0
    ensures InReady(s.ready, p) > 0 || (s.cpus[c].pc.Putting? && s.cpus[c].proc == Some(p))
  {
    if s.cpus[c].pc.FetchIdle? || s.cpus[c].pc.Fetch? {
      GotMoves(s.ready, p);
    } else if s.cpus[c].pc.Putting? && s.cpus[c].proc.Some? {
      PutMoves(s, s.cpus[c].proc.value, p);
    }
  }

  lemma FinishedGrows(cfg: Config, s: State, c: nat)
    requires CpuEnabled(s, c)
    ensures CpuDo(cfg, s, c).finished == s.finished ||
      (s.cpus[c].pc.Top? && s.cpus[c].proc.Some? && s.lives[s.cpus[c].proc.value].pc == s.cpus[c].proc.value.size
       && CpuDo(cfg, s, c).finished == s.finished + [s.cpus[c].proc.value] && CpuDo(cfg, s, c).lives == s.lives)
  {
  }

  lemma FinishedComesFrom(cfg: Config, s: State, c: nat, p: Pcb)
    requires CpuEnabled(s, c) && Occ(CpuDo(cfg, s, c).finished, p) > 0
    ensures Occ(s.finished, p) > 0 ||
      (s.cpus[c].pc.Top? && s.cpus[c].proc == Some(p) && s.lives[p].pc == p.size && CpuDo(cfg, s, c).lives == s.lives)
  {
    FinishedGrows(cfg, s, c);
    if s.cpus[c].proc.Some? { OccAppend(s.finished, s.cpus[c].proc.value, p); }
  }

  lemma PutKeepsLives(cfg: Config, s: State, c: nat)
    requires CpuEnabled(s, c) && !s.cpus[c].pc.Running? && !s.cpus[c].pc.Executing?
    ensures CpuDo(cfg, s, c).lives == s.lives
  {
  }

  lemma StaysReady(cfg: Config, s: State, s': State, c: nat, p: Pcb)
    requires Counted(cfg, s) && CpuFrame(s, s', c) && InReady(s.ready, p) > 0 && ReadyOk(s, p)
    ensures ReadyOk(s', p)
  {
    if s.cpus[c].proc.Some? { OnlyOn(cfg, s, c, s.cpus[c].proc.value); }
    assert p in s'.lives.Keys;
  }

  lemma CpuKeepsReady(cfg: Config, s: State, c: nat)
    requires Counted(cfg, s) && ProcessesOk(cfg, s) && CpuEnabled(s, c)
    ensures var s' := CpuDo(cfg, s, c); forall p :: InReady(s'.ready, p) > 0 ==> ReadyOk(s', p)
  {
    var s' := CpuDo(cfg, s, c);
    CpuStepFrame(cfg, s, c);
    forall p | InReady(s'.ready, p) > 0 ensures ReadyOk(s', p) {
      ReadyComesFrom(cfg, s, c, p);
      if InReady(s.ready, p) > 0 {
        StaysReady(cfg, s, s', c, p);
      } else {
        PutIsReady(cfg, s, c, p);
      }
    }
  }

  // What a CPU puts back was unfinished, and it has not executed it in this slot.
  lemma PutIsReady(cfg: Config, s: State, c: nat, p: Pcb)
    requires ModesOk(cfg, s) && CpuEnabled(s, c) && CpuOk(cfg, s, c)
    requires s.cpus[c].pc.Putting? && s.cpus[c].proc == Some(p)
    ensures ReadyOk(CpuDo(cfg, s, c), p)
  {
    PutKeepsLives(cfg, s, c);
    assert Slots.ClientOk(Now(s), s.slots.clients[c]) && CpuModeOk(s.cpus[c].pc, s.slots.clients[c].mode);
  }

  lemma CpuKeepsFinished(cfg: Config, s: State, c: nat)
    requires Counted(cfg, s) && ProcessesOk(cfg, s) && CpuEnabled(s, c)
    ensures var s' := CpuDo(cfg, s, c); forall p :: Occ(s'.finished, p) > 0 ==> FinishedOk(s', p)
  {
    var s' := CpuDo(cfg, s, c);
    CpuStepFrame(cfg, s, c);
    forall p | Occ(s'.finished, p) > 0 ensures FinishedOk(s', p) {
      FinishedComesFrom(cfg, s, c, p);
      if Occ(s.finished, p) > 0 { StaysFinished(cfg, s, s', c, p); } else { JustFinished(cfg, s, c, p); }
    }
  }

  lemma StaysFinished(cfg: Config, s: State, s': State, c: nat, p: Pcb)
    requires Counted(cfg, s) && CpuFrame(s, s', c) && Occ(s.finished, p) > 0 && FinishedOk(s, p)
    ensures FinishedOk(s', p)
  {
    if s.cpus[c].proc.Some? { OnlyOn(cfg, s, c, s.cpus[c].proc.value); }
    assert p in s'.lives.Keys;
  }

  lemma JustFinished(cfg: Config, s: State, c: nat, p: Pcb)
    requires ProcessesOk(cfg, s) && CpuEnabled(s, c) && s.cpus[c].pc.Top? && s.cpus[c].proc == Some(p)
    requires s.lives[p].pc == p.size && CpuDo(cfg, s, c).lives == s.lives && CpuFrame(s, CpuDo(cfg, s, c), c)
    ensures FinishedOk(CpuDo(cfg, s, c), p)
  {
    assert CpuOk(cfg, s, c) && CpuModeOk(s.cpus[c].pc, s.slots.clients[c].mode);
    assert Slots.ClientOk(Now(s), s.slots.clients[c]);
  }

  lemma CpuKeepsProcesses(cfg: Config, s: State, c: nat)
    requires Counted(cfg, s) && ProcessesOk(cfg, s) && CpuEnabled(s, c)
    ensures ProcessesOk(cfg, CpuDo(cfg, s, c))
  {
    var s' := CpuDo(cfg, s, c);
    CpuStepFrame(cfg, s, c);
    assert CpuOk(cfg, s, c) && Slots.ClientOk(Now(s), s.slots.clients[c]);
    assert CpuModeOk(s.cpus[c].pc, s.slots.clients[c].mode);
    OwnMode(cfg, s, c);
    CpuKeepsModes(cfg, s, s', c);
    if Got(s.ready).0.Some? { GotFromReady(s.ready, Got(s.ready).0.value); }
    OwnStep(cfg, s, c);
    forall d | 0 <= d < |s'.cpus| ensures CpuOk(cfg, s', d) {
      if d != c { OtherCpu(cfg, s, s', c, d); }
    }
    forall p | p in s'.lives ensures LifeOk(p, s'.lives[p]) {
      assert p in s.lives.Keys;
      if s.cpus[c].proc == Some(p) { OwnLife(cfg, s, c, p); }
    }
    CpuKeepsReady(cfg, s, c);
    CpuKeepsFinished(cfg, s, c);
    if s.cpus[c].proc.Some? { OnlyOn(cfg, s, c, s.cpus[c].proc.value); }
  }

  /* ---------- Loader steps and ticks ---------- */

  ghost predicate LoaderFrame(cfg: Config, s: State, s': State) {
    && s'.cpus == s.cpus && s'.finished == s.finished && s'.slots.time == s.slots.time
    && |s'.slots.clients| == |s.slots.clients|
    && (forall d :: 0 <= d < |s.slots.clients| && d != cfg.numCpus ==> s'.slots.clients[d] == s.slots.clients[d])
    && s.lives.Keys <= s'.lives.Keys
    && (s.done ==> s'.done)
  }

  lemma LoaderStepFrame(cfg: Config, s: State)
    requires LoaderEnabled(cfg, s)
    ensures LoaderFrame(cfg, s, LoaderDo(cfg, s))
  {
  }

  lemma LoaderMode(cfg: Config, s: State)
    requires ModesOk(cfg, s) && LoaderEnabled(cfg, s)
    ensures ModesOk(cfg, LoaderDo(cfg, s))
  {
    var s', me := LoaderDo(cfg, s), cfg.numCpus;
    LoaderStepFrame(cfg, s);
    assert Slots.ClientOk(Now(s), s.slots.clients[me]);
    assert forall d :: 0 <= d < |s.slots.clients| ==> Slots.ClientOk(Now(s), s.slots.clients[d]);
    LoaderOwnMode(cfg, s);
  }

  lemma LoaderOwnMode(cfg: Config, s: State)
    requires cfg.numCpus < |s.slots.clients| && LoaderEnabled(cfg, s)
    requires Slots.ClientOk(Now(s), s.slots.clients[cfg.numCpus])
    requires LoaderModeOk(s.ld.pc, s.slots.clients[cfg.numCpus].mode)
    ensures var s' := LoaderDo(cfg, s);
      && |s'.slots.clients| == |s.slots.clients|
      && LoaderModeOk(s'.ld.pc, s'.slots.clients[cfg.numCpus].mode)
      && Slots.ClientOk(Now(s), s'.slots.clients[cfg.numCpus])
  {
  }

  // The lives of processes that are in a queue, on a CPU or finished do not change.
  lemma LoaderKeepsLives(cfg: Config, s: State, p: Pcb)
    requires Counted(cfg, s) && LoaderEnabled(cfg, s) && p in s.lives
    requires InReady(s.ready, p) + OnCpus(s.cpus, p) + Occ(s.finished, p) > 0
    ensures p in LoaderDo(cfg, s).lives && LoaderDo(cfg, s).lives[p] == s.lives[p]
  {
  }

  lemma LoaderLife(cfg: Config, s: State, p: Pcb)
    requires Counted(cfg, s) && ProcessesOk(cfg, s) && LoaderEnabled(cfg, s) && p in LoaderDo(cfg, s).lives
    ensures LifeOk(p, LoaderDo(cfg, s).lives[p])
  {
  }

  lemma LoaderKeepsReady(cfg: Config, s: State)
    requires LoaderEnabled(cfg, s)
    ensures LoaderDo(cfg, s).ready == if s.ld.pc.LAdd? then Put(s.ready, cfg.jobs[s.ld.i].pcb) else s.ready
  {
  }

  lemma AddedIsReady(cfg: Config, s: State)
    requires ProcessesOk(cfg, s) && LoaderEnabled(cfg, s) && s.ld.pc.LAdd?
    ensures ReadyOk(LoaderDo(cfg, s), cfg.jobs[s.ld.i].pcb)
  {
  }

  lemma LoaderReady(cfg: Config, s: State, p: Pcb)
    requires Counted(cfg, s) && ProcessesOk(cfg, s) && LoaderEnabled(cfg, s)
    requires InReady(LoaderDo(cfg, s).ready, p) > 0
    ensures ReadyOk(LoaderDo(cfg, s), p)
  {
    LoaderKeepsReady(cfg, s);
    LoaderStepFrame(cfg, s);
    if s.ld.pc.LAdd? {
      AddedIsReady(cfg, s);
      PutMoves(s, cfg.jobs[s.ld.i].pcb, p);
    }
    if InReady(s.ready, p) > 0 {
      assert ReadyOk(s, p);
      LoaderKeepsLives(cfg, s, p);
    }
  }

  lemma LoaderCpu(cfg: Config, s: State, c: nat)
    requires Counted(cfg, s) && ProcessesOk(cfg, s) && LoaderEnabled(cfg, s) && c < |s.cpus|
    ensures c < |LoaderDo(cfg, s).cpus| && c < |LoaderDo(cfg, s).slots.clients| && CpuOk(cfg, LoaderDo(cfg, s), c)
  {
    assert CpuOk(cfg, s, c);
    LoaderStepFrame(cfg, s);
    if s.cpus[c].proc.Some? {
      OnCpu(s.cpus, c, s.cpus[c].proc.value);
      LoaderKeepsLives(cfg, s, s.cpus[c].proc.value);
    }
  }

  lemma LoaderHeld(cfg: Config, s: State)
    requires Counted(cfg, s) && ProcessesOk(cfg, s) && LoaderEnabled(cfg, s)
    ensures var s' := LoaderDo(cfg, s);
      && (LoaderHolds(s'.ld) && s'.ld.i < |cfg.jobs| ==>
            cfg.jobs[s'.ld.i].pcb in s'.lives && s'.lives[cfg.jobs[s'.ld.i].pcb] == Life(0, 0, [], 0, 0))
      && (s'.done <==> s'.ld.pc.LDetach? || s'.ld.pc.LHalted?)
  {
  }

  lemma LoaderKeepsProcesses(cfg: Config, s: State)
    requires Counted(cfg, s) && ProcessesOk(cfg, s) && LoaderEnabled(cfg, s)
    ensures ProcessesOk(cfg, LoaderDo(cfg, s))
  {
    var s' := LoaderDo(cfg, s);
    LoaderStepFrame(cfg, s);
    LoaderMode(cfg, s);
    LoaderHeld(cfg, s);
    forall c | 0 <= c < |s'.cpus| ensures CpuOk(cfg, s', c) { LoaderCpu(cfg, s, c); }
    forall p | p in s'.lives ensures LifeOk(p, s'.lives[p]) { LoaderLife(cfg, s, p); }
    forall p | InReady(s'.ready, p) > 0 ensures ReadyOk(s', p) { LoaderReady(cfg, s, p); }
    forall p | Occ(s'.finished, p) > 0 ensures FinishedOk(s', p) {
      assert FinishedOk(s, p);
      LoaderKeepsLives(cfg, s, p);
    }
  }

  lemma TickKeepsProcesses(cfg: Config, s: State)
    requires ProcessesOk(cfg, s) && Enabled(cfg, s, Tick)
    ensures ProcessesOk(cfg, Do(cfg, s, Tick))
  {
    var s' := Do(cfg, s, Tick);
    Slots.InvKept(s.slots, Slots.Tick);
    forall c | 0 <= c < |s'.cpus| ensures CpuOk(cfg, s', c) { assert CpuOk(cfg, s, c); }
    forall p | InReady(s'.ready, p) > 0 ensures ReadyOk(s', p) { assert ReadyOk(s, p); }
    forall p | Occ(s'.finished, p) > 0 ensures FinishedOk(s', p) { assert FinishedOk(s, p); }
  }

  lemma StepKeepsProcesses(cfg: Config, s: State, a: Action)
    requires Counted(cfg, s) && ProcessesOk(cfg, s) && Enabled(cfg, s, a)
    ensures Counted(cfg, Do(cfg, s, a)) && ProcessesOk(cfg, Do(cfg, s, a))
  {
    if a.CpuStep? {
      assert CpuOk(cfg, s, a.c);
      CpuKeepsProcesses(cfg, s, a.c);
    } else if a.LoaderStep? {
      LoaderKeepsProcesses(cfg, s);
    } else {
      TickKeepsProcesses(cfg, s);
    }
    StepKeepsCount(cfg, s, a);
  }

  /* ---------- When processes arrive ---------- */

  // The slot in which the loader adds process i.
  function Arrival(cfg: Config, i: nat): nat
    requires i < |cfg.jobs|
  {
    if i == 0 then cfg.jobs[0].start
    else if Arrival(cfg, i - 1) + 1 > cfg.jobs[i].start then Arrival(cfg, i - 1) + 1
    else cfg.jobs[i].start
  }

  function Earliest(cfg: Config, i: nat): nat
    requires i <= |cfg.jobs|
  {
    if i == 0 then 0 else Arrival(cfg, i - 1) + 1
  }

  // The loader's own clock: the slot of its current or next round.
  predicate LoaderClockOk(cfg: Config, ld: Loader, calls: nat)
    requires LoaderInRange(cfg, ld)
  {
    match ld.pc
    case LTop => calls == Earliest(cfg, ld.i)
    case LWait => Earliest(cfg, ld.i) <= calls <= Arrival(cfg, ld.i)
    case LEnterWait => Earliest(cfg, ld.i) <= calls < Arrival(cfg, ld.i)
    case LSlotWait => Earliest(cfg, ld.i) <= calls <= Arrival(cfg, ld.i)
    case LAdd => calls == Arrival(cfg, ld.i)
    case LEnterNext => ld.i > 0 && calls == Arrival(cfg, ld.i - 1)
    case LSlotNext => calls == Earliest(cfg, ld.i)
    case _ => ld.i == |cfg.jobs|
  }

  ghost predicate ArrivalsOk(cfg: Config, s: State) {
    && LoaderInRange(cfg, s.ld)
    && |s.arrivals| == s.ld.i
    && (forall k :: 0 <= k < s.ld.i ==> s.arrivals[k] == Arrival(cfg, k))
    && cfg.numCpus < |s.slots.clients|
    && LoaderClockOk(cfg, s.ld, s.slots.clients[cfg.numCpus].calls)
  }

  lemma LoaderKeepsRange(cfg: Config, s: State)
    requires LoaderInRange(cfg, s.ld) && LoaderEnabled(cfg, s)
    ensures LoaderInRange(cfg, LoaderDo(cfg, s).ld)
  {
  }

  lemma LoaderDataKeepsClock(cfg: Config, s: State)
    requires cfg.numCpus < |s.slots.clients| && LoaderEnabled(cfg, s)
    requires LoaderInRange(cfg, s.ld) && LoaderInRange(cfg, LoaderDo(cfg, s).ld)
    requires s.slots.clients[cfg.numCpus].calls == Now(s) || s.ld.pc.LDetach?
    requires LoaderClockOk(cfg, s.ld, s.slots.clients[cfg.numCpus].calls)
    requires s.ld.pc.LTop? || s.ld.pc.LWait? || s.ld.pc.LAdd?
    ensures cfg.numCpus < |LoaderDo(cfg, s).slots.clients|
    ensures LoaderClockOk(cfg, LoaderDo(cfg, s).ld, LoaderDo(cfg, s).slots.clients[cfg.numCpus].calls)
  {
  }

  lemma LoaderTimerKeepsClock(cfg: Config, s: State)
    requires cfg.numCpus < |s.slots.clients| && LoaderEnabled(cfg, s)
    requires LoaderInRange(cfg, s.ld) && LoaderInRange(cfg, LoaderDo(cfg, s).ld)
    requires s.slots.clients[cfg.numCpus].calls == Now(s) || s.ld.pc.LDetach?
    requires LoaderClockOk(cfg, s.ld, s.slots.clients[cfg.numCpus].calls)
    requires !s.ld.pc.LTop? && !s.ld.pc.LWait? && !s.ld.pc.LAdd?
    ensures cfg.numCpus < |LoaderDo(cfg, s).slots.clients|
    ensures LoaderClockOk(cfg, LoaderDo(cfg, s).ld, LoaderDo(cfg, s).slots.clients[cfg.numCpus].calls)
  {
  }

  lemma LoaderKeepsClock(cfg: Config, s: State)
    requires cfg.numCpus < |s.slots.clients| && LoaderEnabled(cfg, s)
    requires LoaderInRange(cfg, s.ld) && LoaderInRange(cfg, LoaderDo(cfg, s).ld)
    requires s.slots.clients[cfg.numCpus].calls == Now(s) || s.ld.pc.LDetach?
    requires LoaderClockOk(cfg, s.ld, s.slots.clients[cfg.numCpus].calls)
    ensures cfg.numCpus < |LoaderDo(cfg, s).slots.clients|
    ensures LoaderClockOk(cfg, LoaderDo(cfg, s).ld, LoaderDo(cfg, s).slots.clients[cfg.numCpus].calls)
  {
    if s.ld.pc.LTop? || s.ld.pc.LWait? || s.ld.pc.LAdd? {
      LoaderDataKeepsClock(cfg, s);
    } else {
      LoaderTimerKeepsClock(cfg, s);
    }
  }

  lemma LoaderKeepsArrivals(cfg: Config, s: State)
    requires ArrivalsOk(cfg, s) && LoaderEnabled(cfg, s)
    requires Slots.ClientOk(Now(s), s.slots.clients[cfg.numCpus])
    requires LoaderModeOk(s.ld.pc, s.slots.clients[cfg.numCpus].mode)
    ensures ArrivalsOk(cfg, LoaderDo(cfg, s))
  {
    LoaderKeepsRange(cfg, s);
    LoaderKeepsClock(cfg, s);
    LoaderRecords(cfg, s);
  }

  lemma LoaderRecords(cfg: Config, s: State)
    requires LoaderEnabled(cfg, s)
    ensures var s' := LoaderDo(cfg, s);
      if s.ld.pc.LAdd? then s'.arrivals == s.arrivals + [Now(s)] && s'.ld.i == s.ld.i + 1
      else s'.arrivals == s.arrivals && s'.ld.i == s.ld.i
  {
  }

  lemma CpuKeepsArrivals(cfg: Config, s: State, s': State, c: nat)
    requires ArrivalsOk(cfg, s) && CpuFrame(s, s', c) && c != cfg.numCpus
    ensures ArrivalsOk(cfg, s')
  {
  }

  lemma StepKeepsArrivals(cfg: Config, s: State, a: Action)
    requires ModesOk(cfg, s) && ArrivalsOk(cfg, s) && Enabled(cfg, s, a)
    ensures ArrivalsOk(cfg, Do(cfg, s, a))
  {
    if a.CpuStep? {
      CpuStepFrame(cfg, s, a.c);
      CpuKeepsArrivals(cfg, s, CpuDo(cfg, s, a.c), a.c);
    } else if a.LoaderStep? {
      assert Slots.ClientOk(Now(s), s.slots.clients[cfg.numCpus]);
      LoaderKeepsArrivals(cfg, s);
    }
  }

  // The arrival noted in a process's own record.
  ghost predicate ArrivedOk(cfg: Config, s: State) {
    && LoaderInRange(cfg, s.ld)
    && forall k :: 0 <= k < s.ld.i ==>
         cfg.jobs[k].pcb in s.lives && s.lives[cfg.jobs[k].pcb].arrival == Arrival(cfg, k)
  }

  lemma CpuKeepsArrived(cfg: Config, s: State, c: nat)
    requires ArrivedOk(cfg, s) && CpuEnabled(s, c)
    ensures ArrivedOk(cfg, CpuDo(cfg, s, c))
  {
    var s' := CpuDo(cfg, s, c);
    CpuStepFrame(cfg, s, c);
    forall k | 0 <= k < s.ld.i
      ensures cfg.jobs[k].pcb in s'.lives && s'.lives[cfg.jobs[k].pcb].arrival == Arrival(cfg, k)
    {
      assert cfg.jobs[k].pcb in s.lives.Keys;
    }
  }

  lemma LoaderKeepsArrived(cfg: Config, s: State)
    requires ValidConfig(cfg) && ArrivedOk(cfg, s) && LoaderEnabled(cfg, s)
    requires s.ld.pc.LAdd? ==> Now(s) == Arrival(cfg, s.ld.i)
    ensures ArrivedOk(cfg, LoaderDo(cfg, s))
  {
  }

  lemma StepKeepsArrived(cfg: Config, s: State, a: Action)
    requires ValidConfig(cfg) && ModesOk(cfg, s) && ArrivalsOk(cfg, s) && ArrivedOk(cfg, s) && Enabled(cfg, s, a)
    ensures ArrivedOk(cfg, Do(cfg, s, a))
  {
    if a.CpuStep? {
      CpuKeepsArrived(cfg, s, a.c);
    } else if a.LoaderStep? {
      assert Slots.ClientOk(Now(s), s.slots.clients[cfg.numCpus]);
      LoaderKeepsArrived(cfg, s);
    }
  }

  /* ---------- No ready process is abandoned ---------- */

  // A CPU that will look at the ready queues again before it exits.
  predicate Attentive(v: Cpu) {
    !(v.pc.Halting? || v.pc.Halted? || (v.pc.Recheck? && v.proc.None?))
  }

  predicate JustAdded(cfg: Config, s: State)
    requires cfg.numCpus < |s.slots.clients|
  {
    s.ld.pc.LEnterNext? || (s.ld.pc.LSlotNext? && s.slots.clients[cfg.numCpus].calls == Now(s) + 1)
  }

  ghost predicate SomeAttentive(s: State) {
    exists c :: 0 <= c < |s.cpus| && Attentive(s.cpus[c])
  }

  // Either a CPU will still look, or the loader added the process in this very
  // slot, so that no CPU can have seen done yet.
  ghost predicate Covered(cfg: Config, s: State)
    requires cfg.numCpus < |s.slots.clients|
  {
    (exists l :: 0 <= l < |s.ready| && s.ready[l] != []) ==> SomeAttentive(s) || JustAdded(cfg, s)
  }

  lemma CpuKeepsCovered(cfg: Config, s: State, c: nat)
    requires ProcessesOk(cfg, s) && CpuEnabled(s, c) && Covered(cfg, s)
    ensures CpuFrame(s, CpuDo(cfg, s, c), c) && Covered(cfg, CpuDo(cfg, s, c))
  {
    var s' := CpuDo(cfg, s, c);
    CpuStepFrame(cfg, s, c);
    assert CpuOk(cfg, s, c);
    if Attentive(s'.cpus[c]) {
      assert SomeAttentive(s');
    } else if s.cpus[c].pc.Fetch? || s.cpus[c].pc.FetchIdle? {
      assert forall l :: 0 <= l < |s'.ready| ==> s'.ready[l] == [];
    } else {
      QuietStep(cfg, s, c);
      if SomeAttentive(s) {
        var d :| 0 <= d < |s.cpus| && Attentive(s.cpus[d]);
        assert Attentive(s'.cpus[d]);
      }
    }
  }

  // A CPU that stops looking, or had stopped, does not touch the ready queues.
  lemma QuietStep(cfg: Config, s: State, c: nat)
    requires CpuEnabled(s, c) && ModesOk(cfg, s) && CpuOk(cfg, s, c)
    requires !Attentive(CpuDo(cfg, s, c).cpus[c]) && !s.cpus[c].pc.Fetch? && !s.cpus[c].pc.FetchIdle?
    ensures CpuDo(cfg, s, c).ready == s.ready && !Attentive(s.cpus[c])
  {
  }

  lemma TickKeepsCovered(cfg: Config, s: State)
    requires ProcessesOk(cfg, s) && Enabled(cfg, s, Tick) && Covered(cfg, s) && cfg.numCpus > 0
    ensures Covered(cfg, Do(cfg, s, Tick))
  {
    if JustAdded(cfg, s) {
      assert CpuOk(cfg, s, 0) && CpuModeOk(s.cpus[0].pc, s.slots.clients[0].mode);
      assert s.slots.clients[0].mode.Waiting?;
      assert Attentive(s.cpus[0]);
    }
  }

  lemma LoaderKeepsCovered(cfg: Config, s: State)
    requires ProcessesOk(cfg, s) && LoaderEnabled(cfg, s) && Covered(cfg, s)
    ensures LoaderFrame(cfg, s, LoaderDo(cfg, s)) && Covered(cfg, LoaderDo(cfg, s))
  {
  }

  /* ---------- The whole invariant ---------- */

  ghost predicate Inv(cfg: Config, s: State) {
    && Counted(cfg, s)
    && ProcessesOk(cfg, s)
    && ArrivalsOk(cfg, s)
    && ArrivedOk(cfg, s)
    && (cfg.numCpus > 0 ==> Covered(cfg, s))
  }

  lemma StepKeepsInv(cfg: Config, s: State, a: Action)
    requires Inv(cfg, s) && Enabled(cfg, s, a)
    ensures Inv(cfg, Do(cfg, s, a))
  {
    StepKeepsProcesses(cfg, s, a);
    StepKeepsArrivals(cfg, s, a);
    StepKeepsArrived(cfg, s, a);
    if cfg.numCpus > 0 {
      if a.CpuStep? {
        CpuKeepsCovered(cfg, s, a.c);
      } else if a.LoaderStep? {
        LoaderKeepsCovered(cfg, s);
      } else {
        TickKeepsCovered(cfg, s);
      }
    }
  }

  lemma InitialInv(cfg: Config)
    requires ValidConfig(cfg)
    ensures Inv(cfg, Initial(cfg))
  {
    var s := Initial(cfg);
    forall p ensures Places(cfg, s, p) == 0 {
      NoneReady(s.ready, p);
      NoneOnCpus(s.cpus, p);
    }
  }

  lemma {:induction false} RunInv(cfg: Config, run: seq<State>, acts: seq<Action>, k: nat)
    requires ValidConfig(cfg) && IsRun(cfg, run, acts) && k < |run|
    ensures Inv(cfg, run[k])
  {
    if k == 0 {
      InitialInv(cfg);
    } else {
      RunInv(cfg, run, acts, k - 1);
      StepOfRun(cfg, run, acts, k - 1);
      StepKeepsInv(cfg, run[k - 1], acts[k - 1]);
    }
  }
}

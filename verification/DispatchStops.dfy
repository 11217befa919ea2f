/** That the simulator can stop: with one CPU and one process there is a run at whose
    end every thread has detached, whatever the configuration says otherwise. */
module DispatchStops {
  import opened Options
  import opened ReadyQueue
  import opened Mlq
  import opened Dispatch
  import opened Census
  import opened DispatchInvariant
  import DG = DispatchProgress
  import DS = DispatchSteps
  import P = DispatchProperties
  import R = DispatchRounds
  import Slots

  predicate AllHalted(s: State) {
    s.ld.pc.LHalted? && forall c :: 0 <= c < |s.cpus| ==> s.cpus[c].pc.Halted?
  }

  /* ---------- Runs in which the loader goes first ---------- */

  lemma ExtendRun(cfg: Config, run: seq<State>, acts: seq<Action>, a: Action)
    requires IsRun(cfg, run, acts) && Enabled(cfg, run[|acts|], a)
    ensures IsRun(cfg, run + [Do(cfg, run[|acts|], a)], acts + [a])
  {
    var run', acts' := run + [Do(cfg, run[|acts|], a)], acts + [a];
    forall k | 0 <= k < |acts'| ensures Step(cfg, run'[k], acts'[k], run'[k + 1]) {
      if k < |acts| { assert Step(cfg, run[k], acts[k], run[k + 1]); }
    }
  }

  lemma PrefixRun(cfg: Config, run: seq<State>, acts: seq<Action>, k: nat)
    requires IsRun(cfg, run, acts) && k <= |acts|
    ensures IsRun(cfg, run[..k + 1], acts[..k])
  {
    forall m | 0 <= m < k ensures Step(cfg, run[..k + 1][m], acts[..k][m], run[..k + 1][m + 1]) {
      assert Step(cfg, run[m], acts[m], run[m + 1]);
    }
  }

  // No other thread steps while the loader can.
  ghost predicate LoaderFirst(cfg: Config, run: seq<State>, acts: seq<Action>)
    requires |run| == |acts| + 1
  {
    forall k :: 0 <= k < |acts| ==> acts[k] == LoaderStep || !LoaderEnabled(cfg, run[k])
  }

  // The loader's step if it has one, otherwise that of some other thread.
  lemma NextAction(cfg: Config, s: State) returns (a: Action)
    requires Inv(cfg, s) && !AllHalted(s)
    ensures Enabled(cfg, s, a) && (a == LoaderStep || !LoaderEnabled(cfg, s))
  {
    if LoaderEnabled(cfg, s) {
      a := LoaderStep;
    } else {
      P.NeverStuck(cfg, s);
      a :| Enabled(cfg, s, a);
    }
  }

  lemma Longer(cfg: Config, run: seq<State>, acts: seq<Action>) returns (run': seq<State>, acts': seq<Action>)
    requires ValidConfig(cfg) && IsRun(cfg, run, acts) && LoaderFirst(cfg, run, acts) && !AllHalted(run[|acts|])
    ensures IsRun(cfg, run', acts') && LoaderFirst(cfg, run', acts') && |acts'| == |acts| + 1
  {
    RunInv(cfg, run, acts, |acts|);
    var a := NextAction(cfg, run[|acts|]);
    ExtendRun(cfg, run, acts, a);
    run', acts' := run + [Do(cfg, run[|acts|], a)], acts + [a];
  }

  lemma {:induction false} LongRun(cfg: Config, n: nat) returns (run: seq<State>, acts: seq<Action>)
    requires ValidConfig(cfg)
    ensures IsRun(cfg, run, acts) && LoaderFirst(cfg, run, acts)
    ensures |acts| == n || AllHalted(run[|acts|])
  {
    if n == 0 {
      run, acts := [Initial(cfg)], [];
    } else {
      run, acts := LongRun(cfg, n - 1);
      if !AllHalted(run[|acts|]) { run, acts := Longer(cfg, run, acts); }
    }
  }

  /* ---------- The process finishes after the loader is done ---------- */

  predicate OneOfEach(cfg: Config) { cfg.numCpus == 1 && |cfg.jobs| == 1 && cfg.jobs[0].pcb.size >= 1 }

  lemma {:induction false} FinishStep(run: seq<State>, p: Pcb, j: nat) returns (k: nat)
    requires j < |run| && Occ(run[0].finished, p) == 0 && Occ(run[j].finished, p) > 0
    ensures k < j && Occ(run[k].finished, p) == 0 && Occ(run[k + 1].finished, p) > 0
  {
    if Occ(run[j - 1].finished, p) == 0 { k := j - 1; } else { k := FinishStep(run, p, j - 1); }
  }

  lemma FinisherIsAtTop(cfg: Config, run: seq<State>, acts: seq<Action>, k: nat, p: Pcb)
    requires ValidConfig(cfg) && IsRun(cfg, run, acts) && k < |acts| && cfg.numCpus == 1
    requires Occ(run[k].finished, p) == 0 && Occ(run[k + 1].finished, p) > 0
    ensures acts[k] == CpuStep(0) && |run[k + 1].cpus| == 1
    ensures run[k + 1].cpus[0].pc.Fetch? && run[k + 1].cpus[0].proc.None?
    ensures run[k + 1].ld == run[k].ld && Now(run[k + 1]) == Now(run[k])
  {
    StepOfRun(cfg, run, acts, k);
    P.RunHasCpus(cfg, run, acts, k);
    if acts[k].CpuStep? {
      CpuStepFrame(cfg, run[k], acts[k].c);
      FinishedComesFrom(cfg, run[k], acts[k].c, p);
    } else if acts[k].LoaderStep? {
      LoaderStepFrame(cfg, run[k]);
    }
  }

  // A loader that cannot step after the only arrival has detached.
  lemma LoaderIsDone(cfg: Config, s: State)
    requires Inv(cfg, s) && OneOfEach(cfg) && !LoaderEnabled(cfg, s) && Now(s) > Arrival(cfg, 0)
    ensures s.ld.pc.LHalted? && s.done
  {
    P.OnlyNextSlotBlocks(cfg, s);
    var v := s.slots.clients[cfg.numCpus];
    assert Slots.ClientOk(Now(s), v) && LoaderModeOk(s.ld.pc, v.mode);
    assert LoaderClockOk(cfg, s.ld, v.calls);
    assert Earliest(cfg, 0) == 0 && Earliest(cfg, 1) == Arrival(cfg, 0) + 1;
  }

  lemma FinishesAfterLoader(cfg: Config, run: seq<State>, acts: seq<Action>, k: nat)
    requires ValidConfig(cfg) && IsRun(cfg, run, acts) && LoaderFirst(cfg, run, acts) && OneOfEach(cfg) && k < |acts|
    requires Occ(run[k].finished, cfg.jobs[0].pcb) == 0 && Occ(run[k + 1].finished, cfg.jobs[0].pcb) > 0
    ensures acts[k] == CpuStep(0) && |run[k + 1].cpus| == 1
    ensures run[k + 1].cpus[0].pc.Fetch? && run[k + 1].cpus[0].proc.None?
    ensures run[k + 1].ld.pc.LHalted?
  {
    FinisherIsAtTop(cfg, run, acts, k, cfg.jobs[0].pcb);
    P.FinishTakesItsTime(cfg, run, acts, k + 1, cfg.jobs[0].pcb);
    RunInv(cfg, run, acts, k);
    LoaderIsDone(cfg, run[k]);
  }

  // Nothing else is ready then.
  lemma NothingReady(cfg: Config, s: State)
    requires Counted(cfg, s) && OneOfEach(cfg) && Occ(s.finished, cfg.jobs[0].pcb) > 0
    ensures Got(s.ready).0.None?
  {
    if Got(s.ready).0.Some? {
      NotReady(cfg, s, Got(s.ready).0.value);
      GotMoves(s.ready, Got(s.ready).0.value);
    }
  }

  lemma NotReady(cfg: Config, s: State, y: Pcb)
    requires Counted(cfg, s) && OneOfEach(cfg) && Occ(s.finished, cfg.jobs[0].pcb) > 0
    ensures InReady(s.ready, y) == 0
  {
    assert Places(cfg, s, y) == if y in s.lives then 1 else 0;
    assert y in s.lives <==> IsLoaded(cfg, s.ld, y);
  }

  predicate OnWayOut(cfg: Config, s: State)
    requires OneOfEach(cfg)
  {
    && |s.cpus| == 1 && s.ld.pc.LHalted? && Occ(s.finished, cfg.jobs[0].pcb) > 0 && s.cpus[0].proc.None?
    && (s.cpus[0].pc.Fetch? || s.cpus[0].pc.Recheck? || s.cpus[0].pc.Halting? || s.cpus[0].pc.Halted?)
  }

  function NextOut(pc: CpuPc): CpuPc {
    match pc
    case Fetch => Recheck
    case Recheck => Halting
    case _ => Halted
  }

  lemma StepOut(cfg: Config, s: State)
    requires Inv(cfg, s) && OneOfEach(cfg) && OnWayOut(cfg, s) && !s.cpus[0].pc.Halted? && OwnOk(cfg, s, 0)
    ensures var s' := CpuDo(cfg, s, 0); OnWayOut(cfg, s') && s'.cpus[0].pc == NextOut(s.cpus[0].pc)
  {
    CpuStepFrame(cfg, s, 0);
    P.CpuKeepsFinished(cfg, s, 0, cfg.jobs[0].pcb);
    if s.cpus[0].pc.Fetch? {
      NothingReady(cfg, s);
      R.OwnFetch(cfg, s, 0);
    } else if s.cpus[0].pc.Recheck? {
      R.OwnRecheck(cfg, s, 0);
    } else {
      R.OwnHalting(cfg, s, 0);
    }
  }

  // One step of the CPU on its way out.
  lemma OneMore(cfg: Config, run: seq<State>, acts: seq<Action>)
    returns (run': seq<State>, acts': seq<Action>)
    requires ValidConfig(cfg) && IsRun(cfg, run, acts) && OneOfEach(cfg)
    requires OnWayOut(cfg, run[|acts|]) && !run[|acts|].cpus[0].pc.Halted?
    ensures IsRun(cfg, run', acts') && OnWayOut(cfg, run'[|acts'|])
    ensures run'[|acts'|].cpus[0].pc == NextOut(run[|acts|].cpus[0].pc)
  {
    var s := run[|acts|];
    RunInv(cfg, run, acts, |acts|);
    P.OnlyNextSlotBlocks(cfg, s);
    ExtendRun(cfg, run, acts, CpuStep(0));
    run', acts' := run + [Do(cfg, s, CpuStep(0))], acts + [CpuStep(0)];
    DS.OwnHolds(cfg, s, 0);
    StepOut(cfg, s);
  }

  lemma LastSteps(cfg: Config, run: seq<State>, acts: seq<Action>)
    returns (run': seq<State>, acts': seq<Action>)
    requires ValidConfig(cfg) && IsRun(cfg, run, acts) && OneOfEach(cfg)
    requires OnWayOut(cfg, run[|acts|]) && run[|acts|].cpus[0].pc.Fetch?
    ensures IsRun(cfg, run', acts') && AllHalted(run'[|acts'|]) && Occ(run'[|acts'|].finished, cfg.jobs[0].pcb) > 0
  {
    run', acts' := OneMore(cfg, run, acts);
    run', acts' := OneMore(cfg, run', acts');
    run', acts' := OneMore(cfg, run', acts');
  }

  // The step that finishes the process, and the three that follow.
  lemma StopsAfterFinish(cfg: Config, run: seq<State>, acts: seq<Action>)
    returns (run': seq<State>, acts': seq<Action>)
    requires ValidConfig(cfg) && IsRun(cfg, run, acts) && LoaderFirst(cfg, run, acts) && OneOfEach(cfg)
    requires Occ(run[|acts|].finished, cfg.jobs[0].pcb) > 0
    ensures IsRun(cfg, run', acts') && AllHalted(run'[|acts'|]) && Occ(run'[|acts'|].finished, cfg.jobs[0].pcb) > 0
  {
    var k := FinishStep(run, cfg.jobs[0].pcb, |acts|);
    FinishesAfterLoader(cfg, run, acts, k);
    PrefixRun(cfg, run, acts, k + 1);
    run', acts' := LastSteps(cfg, run[..k + 2], acts[..k + 1]);
  }

  lemma FewOfEachPrio(cfg: Config, l: nat)
    requires |cfg.jobs| == 1
    ensures |P.OfPrio(cfg, l)| <= MAX_QUEUE_SIZE
  {
    assert P.OfPrio(cfg, l) <= {cfg.jobs[0].pcb};
    P.SubsetSize(P.OfPrio(cfg, l), {cfg.jobs[0].pcb});
  }

  lemma FinishedInTheEnd(cfg: Config, run: seq<State>, acts: seq<Action>)
    requires ValidConfig(cfg) && IsRun(cfg, run, acts) && OneOfEach(cfg)
    requires AllHalted(run[|acts|]) ||
      |acts| == (DG.LastArrival(cfg) + DG.Load(cfg, 1) + 1) * DS.SlotSteps(cfg)
    ensures Occ(run[|acts|].finished, cfg.jobs[0].pcb) > 0
  {
    forall l | 0 <= l < MAX_PRIO ensures |P.OfPrio(cfg, l)| <= MAX_QUEUE_SIZE { FewOfEachPrio(cfg, l); }
    if AllHalted(run[|acts|]) {
      P.EveryProcessRunsToItsEnd(cfg, run, acts, |acts|, 0);
    } else {
      DS.AllRunInSteps(cfg, run, acts, |acts|, 0);
    }
  }

  // For every quantum, and every process of at least one instruction, whatever its
  // start and ranks, one CPU and the loader have a run at whose end both have detached
  // and the process is finished.
  lemma SomeRunStops(cfg: Config) returns (run: seq<State>, acts: seq<Action>)
    requires ValidConfig(cfg) && OneOfEach(cfg)
    ensures IsRun(cfg, run, acts) && AllHalted(run[|acts|]) && Occ(run[|acts|].finished, cfg.jobs[0].pcb) > 0
  {
    run, acts := LongRun(cfg, (DG.LastArrival(cfg) + DG.Load(cfg, 1) + 1) * DS.SlotSteps(cfg));
    FinishedInTheEnd(cfg, run, acts);
    if !AllHalted(run[|acts|]) {
      run, acts := StopsAfterFinish(cfg, run, acts);
    }
  }
}

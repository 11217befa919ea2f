/** What holds of every run of the whole simulator: what the runs of its two halves
    have, that it never gets stuck, and a bound on its steps. */
module SystemProperties {
  import opened Options
  import opened System
  import B = Barrier
  import BP = BarrierProperties
  import C = Census
  import D = Dispatch
  import DG = DispatchProgress
  import DI = DispatchInvariant
  import DP = DispatchProperties
  import DS = DispatchSteps
  import M = Mlq
  import Q = ReadyQueue

  lemma StepOfRun(cfg: D.Config, run: seq<State>, acts: seq<Action>, k: nat)
    requires IsRun(cfg, run, acts) && k < |acts|
    ensures Enabled(cfg, run[k], acts[k]) && run[k + 1] == Do(cfg, run[k], acts[k])
  {
    assert Step(cfg, run[k], acts[k], run[k + 1]);
  }

  lemma StepKeepsInv(cfg: D.Config, s: State, a: Action)
    requires Inv(cfg, s) && Enabled(cfg, s, a)
    ensures Inv(cfg, Do(cfg, s, a))
  {
    match a
    case Own(o) => OwnKeepsInv(cfg, s, o);
    case InTimer(b) => InTimerKeepsInv(cfg, s, b);
  }

  lemma {:induction false} RunInv(cfg: D.Config, run: seq<State>, acts: seq<Action>, k: nat)
    requires IsRun(cfg, run, acts) && k < |run|
    ensures Inv(cfg, run[k])
  {
    if k == 0 {
      InitialInv(cfg);
    } else {
      RunInv(cfg, run, acts, k - 1);
      StepOfRun(cfg, run, acts, k - 1);
      StepKeepsInv(cfg, run[k - 1], acts[k - 1]);
    }
  }

  /* ---------- Runs of the two halves ---------- */

  lemma ExtendSim(cfg: D.Config, run: seq<D.State>, acts: seq<D.Action>, a: D.Action, s: D.State)
    requires D.IsRun(cfg, run, acts) && D.Step(cfg, run[|acts|], a, s)
    ensures D.IsRun(cfg, run + [s], acts + [a])
  {
    var run', acts' := run + [s], acts + [a];
    forall k | 0 <= k < |acts'| ensures D.Step(cfg, run'[k], acts'[k], run'[k + 1]) {
      if k < |acts| { assert D.Step(cfg, run[k], acts[k], run[k + 1]); }
    }
  }

  // What is seen outside src/timer.c of a step ...
  function SeenOf(cfg: D.Config, s: State, a: Action): seq<D.Action> {
    if Enabled(cfg, s, a) && Seen(cfg, s, a).Some? then [Seen(cfg, s, a).value] else []
  }

  // ... and of the first k steps of a run.
  function Trace(cfg: D.Config, run: seq<State>, acts: seq<Action>, k: nat): seq<D.Action>
    requires k <= |acts| < |run|
  {
    if k == 0 then [] else Trace(cfg, run, acts, k - 1) + SeenOf(cfg, run[k - 1], acts[k - 1])
  }

  lemma StepSeen(cfg: D.Config, run: seq<State>, acts: seq<Action>, k: nat)
    requires IsRun(cfg, run, acts) && k < |acts|
    ensures var seen := SeenOf(cfg, run[k], acts[k]);
      || (seen == [] && View(run[k + 1]) == View(run[k]))
      || (|seen| == 1 && D.Step(cfg, View(run[k]), seen[0], View(run[k + 1])))
  {
    RunInv(cfg, run, acts, k);
    StepOfRun(cfg, run, acts, k);
    StepProjects(cfg, run[k], acts[k]);
  }

  lemma ExtendSeen(cfg: D.Config, run: seq<D.State>, acts: seq<D.Action>, seen: seq<D.Action>, s: D.State)
    returns (run': seq<D.State>)
    requires D.IsRun(cfg, run, acts)
    requires (seen == [] && s == run[|acts|]) || (|seen| == 1 && D.Step(cfg, run[|acts|], seen[0], s))
    ensures D.IsRun(cfg, run', acts + seen) && run'[|acts + seen|] == s
  {
    if seen == [] {
      assert acts + seen == acts;
      run' := run;
    } else {
      ExtendSim(cfg, run, acts, seen[0], s);
      assert [seen[0]] == seen;
      run' := run + [s];
    }
  }

  // Every run, with the steps inside src/timer.c hidden but for the tick, the entry
  // and the end of each call, is a run of module Dispatch.
  lemma {:induction false} RunProjects(cfg: D.Config, run: seq<State>, acts: seq<Action>, k: nat)
    returns (simRun: seq<D.State>, simActs: seq<D.Action>)
    requires IsRun(cfg, run, acts) && k < |run|
    ensures D.IsRun(cfg, simRun, simActs) && simRun[|simActs|] == View(run[k])
    ensures simActs == Trace(cfg, run, acts, k)
  {
    if k == 0 {
      InitialInv(cfg);
      simRun, simActs := [View(run[0])], [];
    } else {
      simRun, simActs := RunProjects(cfg, run, acts, k - 1);
      StepSeen(cfg, run, acts, k - 1);
      var seen := SeenOf(cfg, run[k - 1], acts[k - 1]);
      simRun := ExtendSeen(cfg, simRun, simActs, seen, View(run[k]));
      simActs := simActs + seen;
    }
  }

  lemma ExtendTimer(run: seq<B.State>, acts: seq<B.Action>, a: B.Action)
    requires B.IsRun(run, acts) && B.Enabled(run[|acts|], a)
    ensures B.IsRun(run + [B.Do(run[|acts|], a)], acts + [a])
  {
  }

  function Attached(n: nat): B.State {
    B.State(seq(n, _ => B.Dev(B.Out, false, false, B.Free, B.Free, 0, 0)), B.Idle, 0, 0, 0, false)
  }

  lemma {:induction false} AttachAll(n: nat) returns (run: seq<B.State>, acts: seq<B.Action>)
    ensures B.IsRun(run, acts) && run[|acts|] == Attached(n)
  {
    if n == 0 {
      run, acts := [B.INITIAL], [];
    } else {
      run, acts := AttachAll(n - 1);
      ExtendTimer(run, acts, B.Attach);
      assert B.Do(Attached(n - 1), B.Attach).devs == Attached(n).devs;
      run, acts := run + [Attached(n)], acts + [B.Attach];
    }
  }

  // And every run, with the steps outside src/timer.c hidden, goes on from where
  // attaching all devices and starting the timer leads.
  lemma {:induction false} RunOfTimer(cfg: D.Config, run: seq<State>, acts: seq<Action>, k: nat)
    returns (timerRun: seq<B.State>, timerActs: seq<B.Action>)
    requires IsRun(cfg, run, acts) && k < |run|
    ensures B.IsRun(timerRun, timerActs) && timerRun[|timerActs|] == run[k].timer
  {
    if k == 0 {
      timerRun, timerActs := AttachAll(cfg.numCpus + 1);
      ExtendTimer(timerRun, timerActs, B.Start);
      timerRun, timerActs := timerRun + [run[0].timer], timerActs + [B.Start];
    } else {
      timerRun, timerActs := RunOfTimer(cfg, run, acts, k - 1);
      StepOfRun(cfg, run, acts, k - 1);
      if acts[k - 1].InTimer? {
        ExtendTimer(timerRun, timerActs, acts[k - 1].b);
        timerRun, timerActs := timerRun + [run[k].timer], timerActs + [acts[k - 1].b];
      }
    }
  }

  /* ---------- Never stuck ---------- */

  // A CPU or the loader has not detached.
  ghost predicate SomebodyLeft(s: State) {
    !s.sim.ld.pc.LHalted? || exists c :: 0 <= c < |s.sim.cpus| && !s.sim.cpus[c].pc.Halted?
  }

  // A step of a thread by itself, that is neither a spurious wake-up nor the main
  // thread's.
  predicate Proper(a: Action) { a.InTimer? ==> BP.Progress(a.b) && !a.b.Stop? }

  // A thread that is outside src/timer.c can go on.
  lemma CpuOutGoesOn(cfg: D.Config, s: State, d: nat)
    requires B.InRange(s.timer) && d < |s.sim.cpus| && d < |s.timer.devs| && s.timer.devs[d].pc.Out?
    requires Agrees(s.sim, d, s.timer.devs[d].pc)
    requires CpuOutside(s.sim.cpus[d].pc) ==> D.CpuEnabled(View(s), d)
    ensures exists a :: Proper(a) && Enabled(cfg, s, a)
  {
    var pc := s.sim.cpus[d].pc;
    var a :=
      if pc.Halting? then InTimer(B.Leave(d))
      else if AtCall(s.sim, d) then InTimer(B.Call(d))
      else Own(D.CpuStep(d));
    assert Proper(a) && Enabled(cfg, s, a);
  }

  lemma LoaderOutGoesOn(cfg: D.Config, s: State, d: nat)
    requires B.InRange(s.timer) && d == |s.sim.cpus| < |s.timer.devs| && s.timer.devs[d].pc.Out?
    requires Agrees(s.sim, d, s.timer.devs[d].pc)
    requires LoaderOutside(s.sim.ld.pc) ==> D.LoaderEnabled(cfg, View(s))
    ensures exists a :: Proper(a) && Enabled(cfg, s, a)
  {
    var pc := s.sim.ld.pc;
    var a :=
      if pc.LDetach? then InTimer(B.Leave(d))
      else if AtCall(s.sim, d) then InTimer(B.Call(d))
      else Own(D.LoaderStep);
    assert Proper(a) && Enabled(cfg, s, a);
  }

  lemma OutCanGoOn(cfg: D.Config, s: State, d: nat)
    requires Inv(cfg, s) && DI.Inv(cfg, View(s)) && d < |s.timer.devs| && s.timer.devs[d].pc.Out?
    ensures exists a :: Proper(a) && Enabled(cfg, s, a)
  {
    DP.OnlyNextSlotBlocks(cfg, View(s));
    if d < cfg.numCpus { CpuOutGoesOn(cfg, s, d); } else { LoaderOutGoesOn(cfg, s, d); }
  }

  lemma ExitMeansHalted(cfg: D.Config, s: State)
    requires Inv(cfg, s) && s.timer.timer.TExit?
    ensures !SomebodyLeft(s)
  {
    forall d | 0 <= d < |s.timer.devs|
      ensures if d < |s.sim.cpus| then s.sim.cpus[d].pc.Halted? else s.sim.ld.pc.LHalted?
    {
      assert Agrees(s.sim, d, s.timer.devs[d].pc);
      assert B.DevOk(s.timer.timer, s.timer.time, d, s.timer.devs[d]) && s.timer.devs[d].fsh;
    }
    assert Agrees(s.sim, cfg.numCpus, s.timer.devs[cfg.numCpus].pc);
  }

  // As long as a CPU or the loader is there, in every state of every run some thread
  // can take a step without a spurious wake-up: no deadlock between the mutexes, the
  // condition variables and the scheduler.
  lemma NeverStuck(cfg: D.Config, run: seq<State>, acts: seq<Action>, k: nat)
    requires D.ValidConfig(cfg) && IsRun(cfg, run, acts) && k < |run| && SomebodyLeft(run[k])
    ensures exists a :: Proper(a) && Enabled(cfg, run[k], a)
  {
    var s := run[k];
    RunInv(cfg, run, acts, k);
    if s.timer.timer.TExit? { ExitMeansHalted(cfg, s); }
    BP.NoDeadlock(s.timer);
    if B.TimerEnabled(s.timer) {
      assert Enabled(cfg, s, InTimer(B.Timer)) && Proper(InTimer(B.Timer));
    } else if d :| 0 <= d < |s.timer.devs| && B.DeviceEnabled(s.timer.devs[d]) {
      assert Enabled(cfg, s, InTimer(B.Device(d))) && Proper(InTimer(B.Device(d)));
    } else {
      var simRun, simActs := RunProjects(cfg, run, acts, k);
      DI.RunInv(cfg, simRun, simActs, |simActs|);
      OutCanGoOn(cfg, s, s.timer.timer.i);
    }
  }

  /* ---------- A bound on the steps ---------- */

  lemma SimInv(cfg: D.Config, run: seq<State>, acts: seq<Action>, k: nat)
    requires D.ValidConfig(cfg) && IsRun(cfg, run, acts) && k < |run|
    ensures DI.Inv(cfg, View(run[k]))
  {
    var simRun, simActs := RunProjects(cfg, run, acts, k);
    DI.RunInv(cfg, simRun, simActs, |simActs|);
  }

  predicate Sized(cfg: D.Config, s: State) {
    |s.sim.cpus| == cfg.numCpus && |s.timer.devs| == cfg.numCpus + 1
  }

  // The steps that are left before the next tick.  Each step of a thread outside
  // src/timer.c pays for its way through next_slot.
  function StepsLeft(cfg: D.Config, s: State): nat
    requires Sized(cfg, s)
  {
    65 * DS.StepsLeft(cfg, View(s)) + BP.Measure(s.timer)
  }

  // The most steps of all threads, without spurious wake-ups, that fit in one slot.
  function SlotSteps(cfg: D.Config): nat { 634 * cfg.numCpus + 449 }

  lemma StepsLeftBound(cfg: D.Config, s: State)
    requires Inv(cfg, s) && DI.ModesOk(cfg, View(s))
    ensures StepsLeft(cfg, s) < SlotSteps(cfg)
  {
    DS.StepsLeftBound(cfg, View(s));
    BP.MeasureBound(s.timer);
  }

  predicate IsTick(s: State, a: Action) { a.InTimer? && a.b.Timer? && s.timer.timer.TTick? }

  predicate IsSpurious(a: Action) { a.InTimer? && !BP.Progress(a.b) }

  // What is seen outside src/timer.c takes a step from a CPU or the loader.
  lemma SeenTakesOne(cfg: D.Config, s: State, a: Action)
    requires Inv(cfg, s) && Enabled(cfg, s, a) && !IsTick(s, a) && Inv(cfg, Do(cfg, s, a))
    requires DI.ProcessesOk(cfg, View(s)) && DI.ModesOk(cfg, View(Do(cfg, s, a)))
    ensures if Seen(cfg, s, a).Some? then DS.StepsLeft(cfg, View(Do(cfg, s, a))) < DS.StepsLeft(cfg, View(s))
            else View(Do(cfg, s, a)) == View(s)
  {
    StepProjects(cfg, s, a);
    if Seen(cfg, s, a).Some? { DS.StepTakesOne(cfg, View(s), Seen(cfg, s, a).value); }
  }

  lemma TimerStepCosts(cfg: D.Config, s: State, b: B.Action)
    requires Inv(cfg, s) && Enabled(cfg, s, InTimer(b)) && !IsTick(s, InTimer(b)) && BP.Progress(b)
    ensures BP.Measure(B.Do(s.timer, b)) < BP.Measure(s.timer) ||
      (BP.Measure(B.Do(s.timer, b)) == BP.Measure(s.timer) + 56 && Seen(cfg, s, InTimer(b)).Some?)
  {
    if b.Timer? {
      BP.TimerStepDecreases(s.timer);
    } else if b.Device? {
      if s.timer.devs[b.d].pc.AtLeave? {
        BP.ReturnCosts(s.timer, b.d);
      } else {
        BP.DeviceStepDecreases(s.timer, b.d);
      }
    } else {
      BP.OutsideStepDecreases(s.timer, b);
    }
  }

  // Every step but the tick and the spurious wake-ups takes one of the steps left.
  lemma StepTakesOne(cfg: D.Config, s: State, a: Action)
    requires Inv(cfg, s) && Enabled(cfg, s, a) && !IsTick(s, a) && !IsSpurious(a) && Inv(cfg, Do(cfg, s, a))
    requires DI.ProcessesOk(cfg, View(s)) && DI.ModesOk(cfg, View(Do(cfg, s, a)))
    ensures StepsLeft(cfg, Do(cfg, s, a)) < StepsLeft(cfg, s)
  {
    SeenTakesOne(cfg, s, a);
    if a.InTimer? { TimerStepCosts(cfg, s, a.b); }
  }

  lemma SpuriousCosts(cfg: D.Config, s: State, a: Action)
    requires Inv(cfg, s) && Enabled(cfg, s, a) && IsSpurious(a) && Inv(cfg, Do(cfg, s, a))
    ensures View(Do(cfg, s, a)) == View(s) && StepsLeft(cfg, Do(cfg, s, a)) <= StepsLeft(cfg, s) + 32
  {
    StepProjects(cfg, s, a);
    BP.SpuriousStepCosts(s.timer, a.b);
  }

  // How many of the first n actions are spurious wake-ups.
  function Spurious(acts: seq<Action>, n: nat): nat
    requires n <= |acts|
  {
    if n == 0 then 0 else Spurious(acts, n - 1) + if IsSpurious(acts[n - 1]) then 1 else 0
  }

  // What a step may add to the steps left, and itself: a tick a slot's worth, a
  // spurious wake-up the way back to sleep.
  function Cost(cfg: D.Config, s: State, a: Action): nat {
    if IsTick(s, a) then SlotSteps(cfg) else if IsSpurious(a) then 33 else 0
  }

  lemma StepCost(cfg: D.Config, s: State, a: Action)
    requires Inv(cfg, s) && DI.ProcessesOk(cfg, View(s)) && Enabled(cfg, s, a)
    requires Inv(cfg, Do(cfg, s, a)) && DI.ModesOk(cfg, View(Do(cfg, s, a)))
    ensures StepsLeft(cfg, Do(cfg, s, a)) + 1 <= StepsLeft(cfg, s) + Cost(cfg, s, a)
  {
    if IsTick(s, a) {
      StepsLeftBound(cfg, Do(cfg, s, a));
    } else if IsSpurious(a) {
      SpuriousCosts(cfg, s, a);
    } else {
      StepTakesOne(cfg, s, a);
    }
  }

  lemma RunCost(cfg: D.Config, run: seq<State>, acts: seq<Action>, k: nat)
    requires D.ValidConfig(cfg) && IsRun(cfg, run, acts) && k < |acts|
    ensures Sized(cfg, run[k]) && Sized(cfg, run[k + 1])
    ensures StepsLeft(cfg, run[k + 1]) + 1 <= StepsLeft(cfg, run[k]) + Cost(cfg, run[k], acts[k])
  {
    SimInv(cfg, run, acts, k);
    SimInv(cfg, run, acts, k + 1);
    RunInv(cfg, run, acts, k);
    RunInv(cfg, run, acts, k + 1);
    StepOfRun(cfg, run, acts, k);
    StepCost(cfg, run[k], acts[k]);
  }

  function Costs(cfg: D.Config, run: seq<State>, acts: seq<Action>): seq<nat>
    requires |acts| < |run|
  {
    seq(|acts|, k requires 0 <= k < |acts| => Cost(cfg, run[k], acts[k]))
  }

  function Sum(costs: seq<nat>, n: nat): nat
    requires n <= |costs|
  {
    if n == 0 then 0 else Sum(costs, n - 1) + costs[n - 1]
  }

  lemma {:induction false} SumPays(left: seq<nat>, costs: seq<nat>, n: nat)
    requires n <= |costs| < |left|
    requires forall k :: 0 <= k < |costs| ==> left[k + 1] + 1 <= left[k] + costs[k]
    ensures n + left[n] <= left[0] + Sum(costs, n)
  {
    if n > 0 {
      SumPays(left, costs, n - 1);
      assert left[n - 1 + 1] + 1 <= left[n - 1] + costs[n - 1];
    }
  }

  function LeftAlong(cfg: D.Config, run: seq<State>): seq<nat> {
    seq(|run|, k requires 0 <= k < |run| => if Sized(cfg, run[k]) then StepsLeft(cfg, run[k]) else 0)
  }

  lemma StartCost(cfg: D.Config, run: seq<State>, acts: seq<Action>)
    requires D.ValidConfig(cfg) && IsRun(cfg, run, acts)
    ensures Sized(cfg, run[0]) && StepsLeft(cfg, run[0]) < SlotSteps(cfg)
  {
    RunInv(cfg, run, acts, 0);
    SimInv(cfg, run, acts, 0);
    StepsLeftBound(cfg, run[0]);
  }

  lemma PaidFor(cfg: D.Config, run: seq<State>, acts: seq<Action>, k: nat)
    requires D.ValidConfig(cfg) && IsRun(cfg, run, acts) && k < |run|
    ensures k < SlotSteps(cfg) + Sum(Costs(cfg, run, acts), k)
  {
    var left, costs := LeftAlong(cfg, run), Costs(cfg, run, acts);
    StartCost(cfg, run, acts);
    forall i | 0 <= i < |costs| ensures left[i + 1] + 1 <= left[i] + costs[i] { RunCost(cfg, run, acts, i); }
    SumPays(left, costs, k);
  }

  lemma TimeOfStep(cfg: D.Config, run: seq<State>, acts: seq<Action>, k: nat)
    requires IsRun(cfg, run, acts) && k < |acts|
    ensures run[k + 1].timer.time == run[k].timer.time + if IsTick(run[k], acts[k]) then 1 else 0
  {
    StepOfRun(cfg, run, acts, k);
  }

  lemma StartTime(cfg: D.Config, run: seq<State>, acts: seq<Action>)
    requires IsRun(cfg, run, acts)
    ensures run[0].timer.time == 0
  {
  }

  lemma OneMore(t: nat, m: nat)
    ensures (t + 1) * m == t * m + m
  {
  }

  lemma {:induction false} PaidIs(cfg: D.Config, run: seq<State>, acts: seq<Action>, k: nat, m: nat)
    requires IsRun(cfg, run, acts) && k < |run| && m == SlotSteps(cfg)
    ensures Sum(Costs(cfg, run, acts), k) == run[k].timer.time * m + 33 * Spurious(acts, k)
  {
    if k == 0 {
      StartTime(cfg, run, acts);
    } else {
      PaidIs(cfg, run, acts, k - 1, m);
      TimeOfStep(cfg, run, acts, k - 1);
      OneMore(run[k - 1].timer.time, m);
    }
  }

  // In every interleaving of all threads, time is at least the number of steps taken,
  // less 33 for each spurious wake-up, divided by the most that fit in one slot.
  lemma StepsTakeTime(cfg: D.Config, run: seq<State>, acts: seq<Action>, k: nat)
    requires D.ValidConfig(cfg) && IsRun(cfg, run, acts) && k < |run|
    ensures k < (run[k].timer.time + 1) * SlotSteps(cfg) + 33 * Spurious(acts, k)
  {
    PaidFor(cfg, run, acts, k);
    PaidIs(cfg, run, acts, k, SlotSteps(cfg));
    OneMore(run[k].timer.time, SlotSteps(cfg));
  }

  lemma TimeAfter(cfg: D.Config, run: seq<State>, acts: seq<Action>, k: nat, t: nat)
    requires D.ValidConfig(cfg) && IsRun(cfg, run, acts) && k < |run|
    requires k >= (t + 1) * SlotSteps(cfg) + 33 * Spurious(acts, k)
    ensures run[k].timer.time > t
  {
    StepsTakeTime(cfg, run, acts, k);
    TimeReached(t, run[k].timer.time, SlotSteps(cfg), k, 33 * Spurious(acts, k));
  }

  lemma TimeReached(t: nat, now: nat, m: nat, k: nat, extra: nat)
    requires (t + 1) * m + extra <= k < (now + 1) * m + extra
    ensures now > t
  {
    DS.TimeReached(t, now, m, k - extra);
  }

  // The slot by which the configuration has all processes over.
  function LastSlot(cfg: D.Config): nat
    requires cfg.jobs != []
  {
    DG.LastArrival(cfg) + DG.Load(cfg, |cfg.jobs|)
  }

  // So from a number of steps on that only the configuration and the spurious wake-ups
  // determine, every interleaving of the threads of both files has finished all
  // processes, or dropped them from a full level ...
  lemma AllOverInSteps(cfg: D.Config, run: seq<State>, acts: seq<Action>, k: nat, i: nat)
    requires D.ValidConfig(cfg) && IsRun(cfg, run, acts) && k < |run| && cfg.numCpus > 0 && i < |cfg.jobs|
    requires k >= (LastSlot(cfg) + 1) * SlotSteps(cfg) + 33 * Spurious(acts, k)
    ensures C.Occ(run[k].sim.finished, cfg.jobs[i].pcb) + C.Occ(run[k].sim.dropped, cfg.jobs[i].pcb) == 1
  {
    TimeAfter(cfg, run, acts, k, LastSlot(cfg));
    var simRun, simActs := RunProjects(cfg, run, acts, k);
    DG.AllOverInTime(cfg, simRun, simActs, |simActs|, i);
  }

  // ... and with at most MAX_QUEUE_SIZE processes per prio has executed all of their
  // instructions, each once, in order.
  lemma AllRunInSteps(cfg: D.Config, run: seq<State>, acts: seq<Action>, k: nat, i: nat)
    requires D.ValidConfig(cfg) && IsRun(cfg, run, acts) && k < |run| && cfg.numCpus > 0 && i < |cfg.jobs|
    requires k >= (LastSlot(cfg) + 1) * SlotSteps(cfg) + 33 * Spurious(acts, k)
    requires forall l :: 0 <= l < M.MAX_PRIO ==> |DP.OfPrio(cfg, l)| <= Q.MAX_QUEUE_SIZE
    ensures var p := cfg.jobs[i].pcb;
      && C.Occ(run[k].sim.finished, p) == 1 && p in run[k].sim.lives
      && run[k].sim.lives[p].log == seq(p.size, n => n)
  {
    TimeAfter(cfg, run, acts, k, LastSlot(cfg));
    var simRun, simActs := RunProjects(cfg, run, acts, k);
    DG.AllRunInTime(cfg, simRun, simActs, |simActs|, i);
  }
}

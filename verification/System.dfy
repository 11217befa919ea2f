/** The whole simulator: the CPUs and the loader of src/os.c on top of the threads of
    src/timer.c, with no slot machine in between.  Every run of it is a run of module
    Dispatch, once the steps inside next_slot and detach_event are hidden, and a run
    of module Barrier, once those outside are. */
module System {
  import opened Options
  import B = Barrier
  import BP = BarrierProperties
  import D = Dispatch
  import DI = DispatchInvariant
  import Slots

  // sim.slots is not used: the timer is in its place.
  datatype State = State(timer: B.State, sim: D.State)

  datatype Action =
    | Own(a: D.Action)      // a step of a CPU or the loader outside src/timer.c
    | InTimer(b: B.Action)  // a step of any thread inside it

  // CPU c is device c, the loader the last device; all are attached before the timer
  // starts, and the timer starts before they do.
  function Initial(cfg: D.Config): State {
    State(B.State(seq(cfg.numCpus + 1, _ => B.Dev(B.Out, false, false, B.Free, B.Free, 0, 0)), B.Top, 0, 0, 0, false),
          D.Initial(cfg))
  }

  // What the code of src/os.c sees of a state.
  function View(s: State): D.State { s.sim.(slots := BP.Abs(s.timer)) }

  predicate LoaderAtTimer(pc: D.LdPc) {
    pc.LEnterWait? || pc.LSlotWait? || pc.LEnterNext? || pc.LSlotNext? || pc.LDetach?
  }

  predicate OwnEnabled(cfg: D.Config, s: State, a: D.Action) {
    match a
    case CpuStep(c) => D.CpuEnabled(View(s), c) && !DI.AtTimer(s.sim.cpus[c].pc)
    case LoaderStep => D.LoaderEnabled(cfg, View(s)) && !LoaderAtTimer(s.sim.ld.pc)
    case Tick => false
  }

  predicate AtCall(sim: D.State, d: nat) {
    if d < |sim.cpus| then sim.cpus[d].pc.IdleSlot? || sim.cpus[d].pc.SkipSlot? || sim.cpus[d].pc.Ending?
    else sim.ld.pc.LEnterWait? || sim.ld.pc.LEnterNext?
  }

  predicate AtDetach(sim: D.State, d: nat) {
    if d < |sim.cpus| then sim.cpus[d].pc.Halting? else sim.ld.pc.LDetach?
  }

  // A device enters next_slot or detach_event when its thread calls it.
  predicate Enabled(cfg: D.Config, s: State, a: Action) {
    match a
    case Own(o) => OwnEnabled(cfg, s, o)
    case InTimer(b) =>
      && B.Enabled(s.timer, b) && !b.Attach? && !b.Start?
      && (b.Call? ==> AtCall(s.sim, b.d)) && (b.Leave? ==> AtDetach(s.sim, b.d))
  }

  function CpuTo(sim: D.State, c: nat, pc: D.CpuPc): D.State
    requires c < |sim.cpus|
  {
    D.SetCpu(sim, c, sim.cpus[c].(pc := pc))
  }

  function LoaderTo(sim: D.State, pc: D.LdPc): D.State { sim.(ld := sim.ld.(pc := pc)) }

  // Thread d is inside next_slot ...
  function Called(sim: D.State, d: nat): D.State {
    if d < |sim.cpus| then CpuTo(sim, d, D.InSlot)
    else LoaderTo(sim, if sim.ld.pc.LEnterWait? then D.LSlotWait else D.LSlotNext)
  }

  // ... is back from it ...
  function Returned(sim: D.State, d: nat): D.State {
    if d < |sim.cpus| then CpuTo(sim, d, D.Top)
    else LoaderTo(sim, if sim.ld.pc.LSlotWait? then D.LWait else D.LTop)
  }

  // ... or has detached.
  function Detached(sim: D.State, d: nat): D.State {
    if d < |sim.cpus| then CpuTo(sim, d, D.Halted) else LoaderTo(sim, D.LHalted)
  }

  function SimAfter(s: State, b: B.Action): D.State
    requires B.Enabled(s.timer, b)
  {
    match b
    case Call(d) => Called(s.sim, d)
    case Device(d) =>
      if s.timer.devs[d].pc.AtLeave? then Returned(s.sim, d)
      else if s.timer.devs[d].pc.AtFsh? then Detached(s.sim, d)
      else s.sim
    case _ => s.sim
  }

  function Do(cfg: D.Config, s: State, a: Action): State
    requires Enabled(cfg, s, a)
  {
    match a
    case Own(o) => s.(sim := D.Do(cfg, View(s), o))
    case InTimer(b) => State(B.Do(s.timer, b), SimAfter(s, b))
  }

  ghost predicate Step(cfg: D.Config, s: State, a: Action, s': State) {
    Enabled(cfg, s, a) && s' == Do(cfg, s, a)
  }

  ghost predicate IsRun(cfg: D.Config, run: seq<State>, acts: seq<Action>) {
    && |run| == |acts| + 1
    && run[0] == Initial(cfg)
    && forall k :: 0 <= k < |acts| ==> Step(cfg, run[k], acts[k], run[k + 1])
  }

  /* ---------- Where the two halves of a thread stand ---------- */

  predicate InNextSlot(pc: B.DevPc) {
    pc.WantE? || pc.AtSet? || pc.AtSignalE? || pc.AtUnlockE? || pc.WantT? || pc.AtTest? || pc.Asleep? || pc.AtLeave?
  }

  predicate HasLeft(pc: B.DevPc) { pc.AtSignalD? || pc.AtUnlockD? || pc.Gone? }

  predicate Agrees(sim: D.State, d: nat, pc: B.DevPc) {
    if d < |sim.cpus| then
      && (sim.cpus[d].pc.InSlot? <==> InNextSlot(pc)) && (sim.cpus[d].pc.Halted? <==> HasLeft(pc))
      && (pc.WantD? || pc.AtFsh? ==> sim.cpus[d].pc.Halting?)
    else
      && (sim.ld.pc.LSlotWait? || sim.ld.pc.LSlotNext? <==> InNextSlot(pc)) && (sim.ld.pc.LHalted? <==> HasLeft(pc))
      && (pc.WantD? || pc.AtFsh? ==> sim.ld.pc.LDetach?)
  }

  ghost predicate Inv(cfg: D.Config, s: State) {
    && B.Inv(s.timer) && !s.timer.timer.Idle?
    && |s.sim.cpus| == cfg.numCpus && |s.timer.devs| == cfg.numCpus + 1
    && forall d :: 0 <= d < |s.timer.devs| ==> Agrees(s.sim, d, s.timer.devs[d].pc)
  }

  lemma InitialInv(cfg: D.Config)
    ensures Inv(cfg, Initial(cfg)) && View(Initial(cfg)) == D.Initial(cfg)
  {
    assert View(Initial(cfg)).slots.clients == D.Initial(cfg).slots.clients;
  }

  predicate LoaderClear(pc: D.LdPc) { !LoaderAtTimer(pc) && !pc.LHalted? }

  predicate CpuClear(pc: D.CpuPc) { !DI.AtTimer(pc) && !pc.Halted? }

  predicate CpuOutside(pc: D.CpuPc) { !pc.InSlot? && !pc.Halted? }

  predicate LoaderOutside(pc: D.LdPc) { !pc.LSlotWait? && !pc.LSlotNext? && !pc.LHalted? }

  // The code outside src/timer.c keeps clear of it.
  lemma OwnFrame(cfg: D.Config, s: State, a: D.Action)
    requires OwnEnabled(cfg, s, a) && |s.sim.cpus| == cfg.numCpus
    ensures var v := D.Do(cfg, View(s), a);
      && v.slots == BP.Abs(s.timer) && |v.cpus| == |s.sim.cpus|
      && (forall d :: 0 <= d < |s.sim.cpus| ==>
            v.cpus[d] == s.sim.cpus[d] || (CpuClear(s.sim.cpus[d].pc) && CpuOutside(v.cpus[d].pc)))
      && (v.ld == s.sim.ld || (LoaderClear(s.sim.ld.pc) && LoaderOutside(v.ld.pc)))
  {
    if a.CpuStep? { DI.DataStepFrame(cfg, View(s), a.c); }
  }

  lemma OwnKeepsInv(cfg: D.Config, s: State, a: D.Action)
    requires Inv(cfg, s) && OwnEnabled(cfg, s, a)
    ensures Inv(cfg, Do(cfg, s, Own(a))) && View(Do(cfg, s, Own(a))) == D.Do(cfg, View(s), a)
  {
    OwnFrame(cfg, s, a);
    var sim' := Do(cfg, s, Own(a)).sim;
    forall d | 0 <= d < |s.timer.devs| ensures Agrees(sim', d, s.timer.devs[d].pc) {
      assert Agrees(s.sim, d, s.timer.devs[d].pc);
    }
  }

  // A device stays inside the same function.
  predicate SameSide(pc: B.DevPc, pc': B.DevPc) {
    && (InNextSlot(pc) <==> InNextSlot(pc')) && (HasLeft(pc) <==> HasLeft(pc'))
    && (pc.WantD? || pc.AtFsh? <==> pc'.WantD? || pc'.AtFsh?)
  }

  predicate Moves(t: B.State, b: B.Action, e: nat)
    requires e < |t.devs|
  {
    b == B.Call(e) || b == B.Leave(e) || (b == B.Device(e) && (t.devs[e].pc.AtLeave? || t.devs[e].pc.AtFsh?))
  }

  lemma DeviceSides(t: B.State, d: nat, e: nat)
    requires d < |t.devs| && e < |t.devs| && B.DeviceEnabled(t.devs[d]) && !Moves(t, B.Device(d), e)
    ensures |B.DeviceDo(t, d).devs| == |t.devs| && SameSide(t.devs[e].pc, B.DeviceDo(t, d).devs[e].pc)
  {
  }

  lemma TimerThreadSides(t: B.State, e: nat)
    requires B.InRange(t) && B.TimerEnabled(t) && e < |t.devs|
    ensures |B.TimerDo(t).devs| == |t.devs| && SameSide(t.devs[e].pc, B.TimerDo(t).devs[e].pc)
  {
  }

  lemma TimerSides(t: B.State, b: B.Action, e: nat)
    requires B.Enabled(t, b) && !b.Attach? && e < |t.devs| && !Moves(t, b, e)
    ensures |B.Do(t, b).devs| == |t.devs| && SameSide(t.devs[e].pc, B.Do(t, b).devs[e].pc)
  {
    if b.Device? { DeviceSides(t, b.d, e); } else if b.Timer? { TimerThreadSides(t, e); }
  }

  lemma MoverAgrees(cfg: D.Config, s: State, b: B.Action, e: nat)
    requires Inv(cfg, s) && Enabled(cfg, s, InTimer(b)) && e < |s.timer.devs| && Moves(s.timer, b, e)
    ensures |B.Do(s.timer, b).devs| == |s.timer.devs| && |SimAfter(s, b).cpus| == |s.sim.cpus|
    ensures Agrees(SimAfter(s, b), e, B.Do(s.timer, b).devs[e].pc)
  {
    assert Agrees(s.sim, e, s.timer.devs[e].pc);
  }

  // Of the threads outside src/timer.c, such a step moves at most its own.
  lemma SimFrame(cfg: D.Config, s: State, b: B.Action, e: nat)
    requires Inv(cfg, s) && Enabled(cfg, s, InTimer(b)) && e < |s.timer.devs| && !Moves(s.timer, b, e)
    ensures |SimAfter(s, b).cpus| == |s.sim.cpus|
    ensures if e < |s.sim.cpus| then SimAfter(s, b).cpus[e] == s.sim.cpus[e] else SimAfter(s, b).ld == s.sim.ld
  {
  }

  lemma InTimerKeepsInv(cfg: D.Config, s: State, b: B.Action)
    requires Inv(cfg, s) && Enabled(cfg, s, InTimer(b))
    ensures Inv(cfg, Do(cfg, s, InTimer(b)))
  {
    B.StepKeepsInv(s.timer, b);
    forall e | 0 <= e < |s.timer.devs|
      ensures |B.Do(s.timer, b).devs| == |s.timer.devs| && |SimAfter(s, b).cpus| == |s.sim.cpus|
      ensures Agrees(SimAfter(s, b), e, B.Do(s.timer, b).devs[e].pc)
    {
      if Moves(s.timer, b, e) {
        MoverAgrees(cfg, s, b, e);
      } else {
        TimerSides(s.timer, b, e);
        SimFrame(cfg, s, b, e);
        assert Agrees(s.sim, e, s.timer.devs[e].pc);
      }
    }
    StillRunning(s.timer, b);
    assert |B.Do(s.timer, b).devs| == |s.timer.devs| && |SimAfter(s, b).cpus| == |s.sim.cpus| by {
      assert |s.timer.devs| > 0;
      assert Agrees(SimAfter(s, b), 0, B.Do(s.timer, b).devs[0].pc);
    }
  }

  lemma StillRunning(t: B.State, b: B.Action)
    requires B.Enabled(t, b) && !b.Attach? && !t.timer.Idle?
    ensures !B.Do(t, b).timer.Idle?
  {
  }

  /* ---------- Runs of module Dispatch ---------- */

  function ThreadOf(cfg: D.Config, d: nat): D.Action { if d < cfg.numCpus then D.CpuStep(d) else D.LoaderStep }

  // What a step looks like to the code of src/os.c.
  function Seen(cfg: D.Config, s: State, a: Action): Option<D.Action>
    requires Enabled(cfg, s, a)
  {
    match a
    case Own(o) => Some(o)
    case InTimer(b) =>
      match BP.AbsAction(s.timer, b)
      case None => None
      case Some(Tick) => Some(D.Tick)
      case Some(_) => Some(ThreadOf(cfg, b.d))
  }

  lemma StutterProjects(cfg: D.Config, s: State, b: B.Action)
    requires Inv(cfg, s) && Enabled(cfg, s, InTimer(b)) && BP.AbsAction(s.timer, b).None?
    ensures View(Do(cfg, s, InTimer(b))) == View(s)
  {
    BP.StepRefinesSlots(s.timer, b);
  }

  lemma TickProjects(cfg: D.Config, s: State, b: B.Action)
    requires Inv(cfg, s) && Enabled(cfg, s, InTimer(b)) && BP.AbsAction(s.timer, b) == Some(Slots.Tick)
    ensures D.Step(cfg, View(s), D.Tick, View(Do(cfg, s, InTimer(b))))
  {
    BP.StepRefinesSlots(s.timer, b);
  }

  lemma CpuProjects(cfg: D.Config, s: State, b: B.Action)
    requires Inv(cfg, s) && Enabled(cfg, s, InTimer(b)) && (b.Call? || b.Device?) && b.d < cfg.numCpus
    requires BP.AbsAction(s.timer, b).Some?
    ensures D.Step(cfg, View(s), D.CpuStep(b.d), View(Do(cfg, s, InTimer(b))))
  {
    BP.StepRefinesSlots(s.timer, b);
    assert Agrees(s.sim, b.d, s.timer.devs[b.d].pc);
  }

  lemma LoaderProjects(cfg: D.Config, s: State, b: B.Action)
    requires Inv(cfg, s) && Enabled(cfg, s, InTimer(b)) && (b.Call? || b.Device?) && b.d == cfg.numCpus
    requires BP.AbsAction(s.timer, b).Some?
    ensures D.Step(cfg, View(s), D.LoaderStep, View(Do(cfg, s, InTimer(b))))
  {
    BP.StepRefinesSlots(s.timer, b);
    assert Agrees(s.sim, b.d, s.timer.devs[b.d].pc);
  }

  // Every step is one of the code of src/os.c over the slot machine, or invisible to it.
  lemma StepProjects(cfg: D.Config, s: State, a: Action)
    requires Inv(cfg, s) && Enabled(cfg, s, a)
    ensures match Seen(cfg, s, a)
      case None => View(Do(cfg, s, a)) == View(s)
      case Some(o) => D.Step(cfg, View(s), o, View(Do(cfg, s, a)))
  {
    if a.Own? {
      OwnKeepsInv(cfg, s, a.a);
    } else if BP.AbsAction(s.timer, a.b).None? {
      StutterProjects(cfg, s, a.b);
    } else if a.b.Timer? {
      TickProjects(cfg, s, a.b);
    } else if a.b.d < cfg.numCpus {
      CpuProjects(cfg, s, a.b);
    } else {
      LoaderProjects(cfg, s, a.b);
    }
  }
}

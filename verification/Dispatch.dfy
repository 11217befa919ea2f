/** The loader and the CPUs of src/os.c, interleaved in any order, over the
    multi-level queue of src/sched.c and the slot machine that src/timer.c refines.
    A step is one critical section of the scheduler, one call into or return from
    the timer, or a stretch of code that touches only the thread's own data. */
module Dispatch {
  import opened Options
  import opened ReadyQueue
  import opened Mlq
  import Slots

  datatype Job = Job(start: nat, pcb: Pcb)

  // time_slot, num_cpus and one line per process of the configuration file.
  datatype Config = Config(quantum: int, numCpus: nat, jobs: seq<Job>)

  // load() numbers the processes 1, 2, ... in the order of the file.
  predicate ValidConfig(cfg: Config) {
    forall i :: 0 <= i < |cfg.jobs| ==> cfg.jobs[i].pcb.pid == i + 1 && cfg.jobs[i].pcb.prio < MAX_PRIO
  }

  datatype CpuPc =
    | Top        // the head of the loop
    | FetchIdle  // proc is NULL: about to call get_proc
    | IdleSlot   // it gave NULL: about to call next_slot and continue
    | Putting    // in put_proc, between running_list and the ready queue
    | Fetch      // about to call get_proc after a process finished or was put back
    | Recheck    // the second test of proc
    | SkipSlot   // proc is NULL and done is not set: about to call next_slot and continue
    | Running    // in run: about to test the program counter and read the instruction
    | Executing(at: nat)  // in run: has read instruction `at`, about to increase the program counter
    | Ending     // after run: about to call next_slot
    | InSlot     // inside next_slot
    | Halting    // about to detach
    | Halted

  // used: calls of run since the process was dispatched; rounds: how often the
  // head of the loop has been taken.  Both are history.
  datatype Cpu = Cpu(pc: CpuPc, proc: Option<Pcb>, left: int, used: int, rounds: nat)

  datatype LdPc =
    | LTop        // the test i < num_processes
    | LWait       // the test current_time() < start_time[i]
    | LEnterWait  // about to call next_slot because it is too early
    | LSlotWait   // inside that call
    | LAdd        // in add_proc, between running_list and the ready queue
    | LEnterNext  // about to call next_slot after adding a process
    | LSlotNext   // inside that call
    | LDetach     // done is set, about to detach
    | LHalted

  datatype Loader = Loader(pc: LdPc, i: nat)

  // What changes about a process: its program counter; and as history, how often
  // run was called on it, the indices of the instructions executed so far, the slot
  // of its arrival, and the first slot in which it has not executed yet.
  datatype Life = Life(pc: nat, runs: nat, log: seq<nat>, arrival: nat, freeAt: nat)

  datatype State = State(
    slots: Slots.State,
    cpus: seq<Cpu>,
    ld: Loader,
    ready: Levels,
    done: bool,
    lives: map<Pcb, Life>,   // the loaded processes
    arrivals: seq<nat>,      // history: when each process was added
    finished: seq<Pcb>,      // history: in the order in which they finished
    dropped: seq<Pcb>)       // history: refused by a full level

  datatype Action = CpuStep(c: nat) | LoaderStep | Tick

  function Initial(cfg: Config): State {
    State(Slots.State(0, seq(cfg.numCpus + 1, _ => Slots.Client(Slots.Working, 0))),
          seq(cfg.numCpus, _ => Cpu(Top, None, 0, 0, 0)),
          Loader(LTop, 0), seq(MAX_PRIO, _ => []), false, map[], [], [], [])
  }

  function Now(s: State): nat { s.slots.time }

  // Waiting inside next_slot is the only way to be blocked.
  predicate CpuEnabled(s: State, c: nat) {
    && c < |s.cpus| && c < |s.slots.clients|
    && match s.cpus[c].pc
       case Halted => false
       case InSlot => Slots.Enabled(s.slots, Slots.Return(c))
       case IdleSlot => Slots.Enabled(s.slots, Slots.Enter(c))
       case SkipSlot => Slots.Enabled(s.slots, Slots.Enter(c))
       case Ending => Slots.Enabled(s.slots, Slots.Enter(c))
       case Halting => Slots.Enabled(s.slots, Slots.Detach(c))
       case _ => s.cpus[c].proc.Some? ==>
         s.cpus[c].proc.value in s.lives && s.cpus[c].proc.value.prio < |s.ready|
  }

  predicate LoaderEnabled(cfg: Config, s: State) {
    var me := cfg.numCpus;
    match s.ld.pc
    case LTop => true
    case LWait => s.ld.i < |cfg.jobs|
    case LAdd => s.ld.i < |cfg.jobs| && cfg.jobs[s.ld.i].pcb.prio < |s.ready| && cfg.jobs[s.ld.i].pcb in s.lives
    case LEnterWait => Slots.Enabled(s.slots, Slots.Enter(me))
    case LEnterNext => Slots.Enabled(s.slots, Slots.Enter(me))
    case LSlotWait => Slots.Enabled(s.slots, Slots.Return(me))
    case LSlotNext => Slots.Enabled(s.slots, Slots.Return(me))
    case LDetach => Slots.Enabled(s.slots, Slots.Detach(me))
    case LHalted => false
  }

  predicate Enabled(cfg: Config, s: State, a: Action) {
    match a
    case CpuStep(c) => CpuEnabled(s, c)
    case LoaderStep => LoaderEnabled(cfg, s)
    case Tick => Slots.Enabled(s.slots, Slots.Tick)
  }

  // run() on a program that has ended.
  function RanNothing(l: Life): Life { l.(runs := l.runs + 1) }

  // The end of run(), which has read instruction `at`: nothing here stops another
  // thread from having run the process in between.
  function Executed(l: Life, at: nat, now: nat): Life {
    Life(l.pc + 1, l.runs + 1, l.log + [at], l.arrival, now + 1)
  }

  // Enqueue p in its level, recording that a full level drops it.
  function PutBack(s: State, p: Pcb): State
    requires p.prio < |s.ready|
  {
    s.(ready := Put(s.ready, p),
       dropped := if |s.ready[p.prio]| < MAX_QUEUE_SIZE then s.dropped else s.dropped + [p])
  }

  function SetCpu(s: State, c: nat, v: Cpu): State
    requires c < |s.cpus|
  {
    s.(cpus := s.cpus[c := v])
  }

  // The first test of the loop.
  function AtTop(s: State, c: nat): State
    requires c < |s.cpus| && (s.cpus[c].proc.Some? ==> s.cpus[c].proc.value in s.lives)
  {
    var v := s.cpus[c].(rounds := s.cpus[c].rounds + 1);
    match v.proc
    case None => SetCpu(s, c, v.(pc := FetchIdle))
    case Some(p) =>
      if s.lives[p].pc == p.size then
        SetCpu(s.(finished := s.finished + [p]), c, v.(pc := Fetch, proc := None, left := 0))
      else if v.left == 0 then SetCpu(s, c, v.(pc := Putting))
      else SetCpu(s, c, v.(pc := Recheck))
  }

  // get_proc
  function AtFetch(s: State, c: nat, ifNone: CpuPc): State
    requires c < |s.cpus|
  {
    var (r, ready) := Got(s.ready);
    SetCpu(s.(ready := ready), c, s.cpus[c].(pc := if r.None? then ifNone else Recheck, proc := r))
  }

  // The second test of the loop.
  function AtRecheck(cfg: Config, s: State, c: nat): State
    requires c < |s.cpus|
  {
    var v := s.cpus[c];
    if v.proc.None? then SetCpu(s, c, v.(pc := if s.done then Halting else SkipSlot))
    else if v.left == 0 then SetCpu(s, c, v.(pc := Running, left := cfg.quantum, used := 0))
    else SetCpu(s, c, v.(pc := Running))
  }

  // run, and the decrement of time_left after it.
  function AfterRun(s: State, c: nat, p: Pcb, l: Life): State
    requires c < |s.cpus|
  {
    SetCpu(s.(lives := s.lives[p := l]), c,
           s.cpus[c].(pc := Ending, left := s.cpus[c].left - 1, used := s.cpus[c].used + 1))
  }

  function AtRun(s: State, c: nat): State
    requires c < |s.cpus| && (s.cpus[c].proc.Some? ==> s.cpus[c].proc.value in s.lives)
  {
    match s.cpus[c].proc
    case None => s
    case Some(p) =>
      if s.lives[p].pc >= p.size then AfterRun(s, c, p, RanNothing(s.lives[p]))
      else SetCpu(s, c, s.cpus[c].(pc := Executing(s.lives[p].pc)))
  }

  function AtExecute(s: State, c: nat, at: nat): State
    requires c < |s.cpus| && (s.cpus[c].proc.Some? ==> s.cpus[c].proc.value in s.lives)
  {
    match s.cpus[c].proc
    case None => s
    case Some(p) => AfterRun(s, c, p, Executed(s.lives[p], at, Now(s)))
  }

  function AtEnter(s: State, c: nat): State
    requires c < |s.cpus| && Slots.Enabled(s.slots, Slots.Enter(c))
  {
    SetCpu(s.(slots := Slots.Do(s.slots, Slots.Enter(c))), c, s.cpus[c].(pc := InSlot))
  }

  function AtPut(s: State, c: nat): State
    requires c < |s.cpus| && (s.cpus[c].proc.Some? ==> s.cpus[c].proc.value.prio < |s.ready|)
  {
    match s.cpus[c].proc
    case None => s
    case Some(p) => SetCpu(PutBack(s, p), c, s.cpus[c].(pc := Fetch, proc := None))
  }

  function CpuDo(cfg: Config, s: State, c: nat): State
    requires CpuEnabled(s, c)
  {
    var v := s.cpus[c];
    match v.pc
    case Top => AtTop(s, c)
    case FetchIdle => AtFetch(s, c, IdleSlot)
    case Fetch => AtFetch(s, c, Recheck)
    case Putting => AtPut(s, c)
    case Recheck => AtRecheck(cfg, s, c)
    case Running => AtRun(s, c)
    case Executing(at) => AtExecute(s, c, at)
    case IdleSlot => AtEnter(s, c)
    case SkipSlot => AtEnter(s, c)
    case Ending => AtEnter(s, c)
    case InSlot => SetCpu(s.(slots := Slots.Do(s.slots, Slots.Return(c))), c, v.(pc := Top))
    case Halting => SetCpu(s.(slots := Slots.Do(s.slots, Slots.Detach(c))), c, v.(pc := Halted))
  }

  function LoaderDo(cfg: Config, s: State): State
    requires LoaderEnabled(cfg, s)
  {
    var me, i := cfg.numCpus, s.ld.i;
    match s.ld.pc
    case LTop =>
      if i < |cfg.jobs|
      then s.(ld := Loader(LWait, i), lives := s.lives[cfg.jobs[i].pcb := Life(0, 0, [], 0, 0)])
      else s.(ld := Loader(LDetach, i), done := true)
    case LWait => s.(ld := Loader(if Now(s) < cfg.jobs[i].start then LEnterWait else LAdd, i))
    case LAdd =>
      PutBack(s, cfg.jobs[i].pcb).(
        ld := Loader(LEnterNext, i + 1),
        arrivals := s.arrivals + [Now(s)],
        lives := s.lives[cfg.jobs[i].pcb := s.lives[cfg.jobs[i].pcb].(arrival := Now(s), freeAt := Now(s))])
    case LEnterWait => s.(ld := Loader(LSlotWait, i), slots := Slots.Do(s.slots, Slots.Enter(me)))
    case LSlotWait => s.(ld := Loader(LWait, i), slots := Slots.Do(s.slots, Slots.Return(me)))
    case LEnterNext => s.(ld := Loader(LSlotNext, i), slots := Slots.Do(s.slots, Slots.Enter(me)))
    case LSlotNext => s.(ld := Loader(LTop, i), slots := Slots.Do(s.slots, Slots.Return(me)))
    case LDetach => s.(ld := Loader(LHalted, i), slots := Slots.Do(s.slots, Slots.Detach(me)))
  }

  function Do(cfg: Config, s: State, a: Action): State
    requires Enabled(cfg, s, a)
  {
    match a
    case CpuStep(c) => CpuDo(cfg, s, c)
    case LoaderStep => LoaderDo(cfg, s)
    case Tick => s.(slots := Slots.Do(s.slots, Slots.Tick))
  }

  ghost predicate Step(cfg: Config, s: State, a: Action, s': State) {
    Enabled(cfg, s, a) && s' == Do(cfg, s, a)
  }

  ghost predicate IsRun(cfg: Config, run: seq<State>, acts: seq<Action>) {
    && |run| == |acts| + 1
    && run[0] == Initial(cfg)
    && forall k :: 0 <= k < |acts| ==> Step(cfg, run[k], acts[k], run[k + 1])
  }

  lemma StepOfRun(cfg: Config, run: seq<State>, acts: seq<Action>, k: nat)
    requires IsRun(cfg, run, acts) && k < |acts|
    ensures Enabled(cfg, run[k], acts[k]) && run[k + 1] == Do(cfg, run[k], acts[k])
  {
    assert Step(cfg, run[k], acts[k], run[k + 1]);
  }
}

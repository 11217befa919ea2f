/** What one CPU does between taking a process and letting it go, and how its loop
    ends, over every run. */
module DispatchRounds {
  import opened Options
  import opened ReadyQueue
  import opened Mlq
  import opened Dispatch
  import opened Census
  import opened DispatchInvariant
  import opened DispatchOrder
  import P = DispatchProperties
  import DS = DispatchSteps

  /* ---------- The steps of one CPU ---------- */

  // Steps i and j of CPU c, with none in between.
  ghost predicate Next(acts: seq<Action>, c: nat, i: nat, j: nat) {
    && i < j < |acts| && acts[i] == CpuStep(c) && acts[j] == CpuStep(c)
    && forall m :: i < m < j ==> acts[m] != CpuStep(c)
  }

  // How many of the steps from i to j are steps of c.
  function OwnSteps(acts: seq<Action>, c: nat, i: nat, j: nat): nat
    requires i <= j <= |acts|
    decreases j - i
  {
    if i == j then 0 else (if acts[i] == CpuStep(c) then 1 else 0) + OwnSteps(acts, c, i + 1, j)
  }

  lemma OthersLeaveIt(cfg: Config, s: State, a: Action, c: nat)
    requires Enabled(cfg, s, a) && a != CpuStep(c) && c < |s.cpus|
    ensures c < |Do(cfg, s, a).cpus| && Do(cfg, s, a).cpus[c] == s.cpus[c]
  {
    match a
    case CpuStep(d) => CpuStepFrame(cfg, s, d);
    case LoaderStep => LoaderStepFrame(cfg, s);
    case Tick =>
  }

  lemma OtherStep(cfg: Config, run: seq<State>, acts: seq<Action>, k: nat, c: nat)
    requires IsRun(cfg, run, acts) && k < |acts| && acts[k] != CpuStep(c) && c < |run[k].cpus|
    ensures c < |run[k + 1].cpus| && run[k + 1].cpus[c] == run[k].cpus[c]
  {
    StepOfRun(cfg, run, acts, k);
    OthersLeaveIt(cfg, run[k], acts[k], c);
  }

  lemma {:induction false} Waits(cfg: Config, run: seq<State>, acts: seq<Action>, i: nat, j: nat, c: nat)
    requires IsRun(cfg, run, acts) && i <= j < |run| && c < |run[i].cpus|
    requires forall m :: i <= m < j ==> acts[m] != CpuStep(c)
    ensures c < |run[j].cpus| && run[j].cpus[c] == run[i].cpus[c]
    decreases j - i
  {
    if i < j {
      OtherStep(cfg, run, acts, i, c);
      Waits(cfg, run, acts, i + 1, j, c);
    }
  }

  // What c knows when it takes a step of a run.
  lemma OwnStep(cfg: Config, run: seq<State>, acts: seq<Action>, k: nat, c: nat)
    requires ValidConfig(cfg) && IsRun(cfg, run, acts) && k < |acts| && acts[k] == CpuStep(c)
    ensures OwnOk(cfg, run[k], c) && run[k + 1] == CpuDo(cfg, run[k], c)
  {
    StepOfRun(cfg, run, acts, k);
    RunInv(cfg, run, acts, k);
    DS.OwnHolds(cfg, run[k], c);
  }

  lemma HasCpus(cfg: Config, run: seq<State>, acts: seq<Action>, k: nat)
    requires ValidConfig(cfg) && IsRun(cfg, run, acts) && k < |run|
    ensures |run[k].cpus| == cfg.numCpus && |run[k].slots.clients| == cfg.numCpus + 1
  {
    P.RunHasCpus(cfg, run, acts, k);
  }

  /* ---------- The time quantum ---------- */

  // The step ends a call of run by CPU c: an instruction is executed, or there was none.
  predicate Runs(s: State, a: Action, c: nat) {
    && a == CpuStep(c) && c < |s.cpus| && s.cpus[c].proc.Some?
    && (s.cpus[c].pc.Executing? ||
        (s.cpus[c].pc.Running? && s.cpus[c].proc.value in s.lives
         && s.lives[s.cpus[c].proc.value].pc >= s.cpus[c].proc.value.size))
  }

  // How many of the steps from i to j do.
  function NumRuns(run: seq<State>, acts: seq<Action>, c: nat, i: nat, j: nat): nat
    requires i <= j <= |acts| < |run|
    decreases j - i
  {
    if i == j then 0 else (if Runs(run[i], acts[i], c) then 1 else 0) + NumRuns(run, acts, c, i + 1, j)
  }

  predicate Holds(s: State, c: nat, p: Pcb) { c < |s.cpus| && s.cpus[c].proc == Some(p) }

  // Step i takes p from the ready queues, and c holds it in every state up to j.
  ghost predicate Stay(run: seq<State>, acts: seq<Action>, i: nat, j: nat, c: nat, p: Pcb) {
    && i < j <= |acts| < |run| && acts[i] == CpuStep(c) && IsFetch(run[i], acts[i])
    && forall m :: i < m <= j ==> Holds(run[m], c, p)
  }

  // After n calls of run since p was taken.
  predicate Counting(v: Cpu, n: int) { if v.pc.Recheck? && v.left == 0 then n == 0 else v.used == n }

  lemma TakenCounting(cfg: Config, s: State, c: nat, p: Pcb)
    requires OwnOk(cfg, s, c) && Fetches(s, CpuStep(c), c) && Holds(CpuDo(cfg, s, c), c, p)
    ensures Counting(CpuDo(cfg, s, c).cpus[c], 0)
  {
  }

  lemma TimerCounting(cfg: Config, s: State, c: nat, p: Pcb, n: nat)
    requires OwnOk(cfg, s, c) && Holds(s, c, p) && Holds(CpuDo(cfg, s, c), c, p) && Counting(s.cpus[c], n)
    requires AtTimer(s.cpus[c].pc)
    ensures !Runs(s, CpuStep(c), c) && Counting(CpuDo(cfg, s, c).cpus[c], n)
  {
  }

  lemma DataCounting(cfg: Config, s: State, c: nat, p: Pcb, n: nat)
    requires OwnOk(cfg, s, c) && Holds(s, c, p) && Holds(CpuDo(cfg, s, c), c, p) && Counting(s.cpus[c], n)
    requires !AtTimer(s.cpus[c].pc)
    ensures Counting(CpuDo(cfg, s, c).cpus[c], n + if Runs(s, CpuStep(c), c) then 1 else 0)
  {
  }

  lemma StepCounting(cfg: Config, run: seq<State>, acts: seq<Action>, k: nat, c: nat, p: Pcb, n: nat)
    requires ValidConfig(cfg) && IsRun(cfg, run, acts) && k < |acts|
    requires Holds(run[k], c, p) && Holds(run[k + 1], c, p) && Counting(run[k].cpus[c], n)
    ensures Counting(run[k + 1].cpus[c], n + if Runs(run[k], acts[k], c) then 1 else 0)
  {
    if acts[k] == CpuStep(c) {
      OwnStep(cfg, run, acts, k, c);
      if AtTimer(run[k].cpus[c].pc) {
        TimerCounting(cfg, run[k], c, p, n);
      } else {
        DataCounting(cfg, run[k], c, p, n);
      }
    } else {
      OtherStep(cfg, run, acts, k, c);
    }
  }

  lemma {:induction false} CountingUntil(cfg: Config, run: seq<State>, acts: seq<Action>,
                                         i: nat, j: nat, c: nat, p: Pcb, n: nat)
    requires ValidConfig(cfg) && IsRun(cfg, run, acts) && i <= j <= |acts|
    requires Holds(run[i], c, p) && Counting(run[i].cpus[c], n)
    requires forall m :: i <= m <= j ==> Holds(run[m], c, p)
    ensures Holds(run[j], c, p) && Counting(run[j].cpus[c], n + NumRuns(run, acts, c, i, j))
    decreases j - i
  {
    if i < j {
      StepCounting(cfg, run, acts, i, c, p, n);
      CountingUntil(cfg, run, acts, i + 1, j, c, p, n + if Runs(run[i], acts[i], c) then 1 else 0);
    }
  }

  lemma StayCounting(cfg: Config, run: seq<State>, acts: seq<Action>, i: nat, j: nat, c: nat, p: Pcb)
    requires ValidConfig(cfg) && IsRun(cfg, run, acts) && Stay(run, acts, i, j, c, p)
    ensures Holds(run[j], c, p) && Counting(run[j].cpus[c], NumRuns(run, acts, c, i + 1, j))
  {
    OwnStep(cfg, run, acts, i, c);
    TakenCounting(cfg, run[i], c, p);
    CountingUntil(cfg, run, acts, i + 1, j, c, p, 0);
  }

  // What c knows in a state of a run in which it holds p.
  predicate HolderOk(cfg: Config, s: State, c: nat, p: Pcb) {
    && Holds(s, c, p) && c < |s.slots.clients| && p in s.lives
    && CpuOk(cfg, s, c) && LifeOk(p, s.lives[p])
  }

  lemma HolderKnows(cfg: Config, run: seq<State>, acts: seq<Action>, j: nat, c: nat, p: Pcb)
    requires ValidConfig(cfg) && IsRun(cfg, run, acts) && j < |run| && Holds(run[j], c, p)
    ensures HolderOk(cfg, run[j], c, p)
  {
    RunInv(cfg, run, acts, j);
    assert CpuOk(cfg, run[j], c);
  }

  lemma CountBound(cfg: Config, s: State, a: Action, c: nat, p: Pcb, n: nat)
    requires HolderOk(cfg, s, c, p) && Counting(s.cpus[c], n) && cfg.quantum >= 1
    ensures n <= cfg.quantum && (n == cfg.quantum ==> !Runs(s, a, c))
  {
  }

  // From when c takes p until p leaves c, c runs it no more than cfg.quantum times, and
  // not again once it has run it that often.
  lemma AtMostTheQuantum(cfg: Config, run: seq<State>, acts: seq<Action>, i: nat, j: nat, c: nat, p: Pcb)
    requires ValidConfig(cfg) && IsRun(cfg, run, acts) && Stay(run, acts, i, j, c, p) && cfg.quantum >= 1
    ensures NumRuns(run, acts, c, i + 1, j) <= cfg.quantum
    ensures NumRuns(run, acts, c, i + 1, j) == cfg.quantum && j < |acts| ==> !Runs(run[j], acts[j], c)
  {
    StayCounting(cfg, run, acts, i, j, c, p);
    HolderKnows(cfg, run, acts, j, c, p);
    CountBound(cfg, run[j], CpuStep(c), c, p, NumRuns(run, acts, c, i + 1, j));
  }

  // The steps of c until p leaves, once the quantum is used up.
  function WayOut(pc: CpuPc): nat {
    match pc
    case Ending => 4
    case InSlot => 3
    case Top => 2
    case Putting => 1
    case _ => 0
  }

  lemma UsedUp(cfg: Config, s: State, c: nat, p: Pcb)
    requires HolderOk(cfg, s, c, p) && Counting(s.cpus[c], cfg.quantum) && cfg.quantum >= 1
    ensures WayOut(s.cpus[c].pc) >= 1
  {
  }

  lemma OwnWayOut(cfg: Config, s: State, c: nat, p: Pcb)
    requires OwnOk(cfg, s, c) && HolderOk(cfg, s, c, p) && Counting(s.cpus[c], cfg.quantum)
    requires cfg.quantum >= 1 && Holds(CpuDo(cfg, s, c), c, p)
    ensures WayOut(CpuDo(cfg, s, c).cpus[c].pc) < WayOut(s.cpus[c].pc)
  {
  }

  lemma StepWayOut(cfg: Config, run: seq<State>, acts: seq<Action>, k: nat, c: nat, p: Pcb)
    requires ValidConfig(cfg) && IsRun(cfg, run, acts) && k < |acts| && cfg.quantum >= 1
    requires Holds(run[k], c, p) && Holds(run[k + 1], c, p) && Counting(run[k].cpus[c], cfg.quantum)
    ensures Counting(run[k + 1].cpus[c], cfg.quantum)
    ensures WayOut(run[k + 1].cpus[c].pc) + (if acts[k] == CpuStep(c) then 1 else 0) <= WayOut(run[k].cpus[c].pc)
  {
    HolderKnows(cfg, run, acts, k, c, p);
    CountBound(cfg, run[k], acts[k], c, p, cfg.quantum);
    StepCounting(cfg, run, acts, k, c, p, cfg.quantum);
    if acts[k] == CpuStep(c) {
      OwnStep(cfg, run, acts, k, c);
      OwnWayOut(cfg, run[k], c, p);
    } else {
      OtherStep(cfg, run, acts, k, c);
    }
  }

  lemma {:induction false} WayOutUntil(cfg: Config, run: seq<State>, acts: seq<Action>, j: nat, k: nat, c: nat, p: Pcb)
    requires ValidConfig(cfg) && IsRun(cfg, run, acts) && j <= k <= |acts| && cfg.quantum >= 1
    requires Holds(run[j], c, p) && Counting(run[j].cpus[c], cfg.quantum)
    requires forall m :: j <= m <= k ==> Holds(run[m], c, p)
    ensures Holds(run[k], c, p) && Counting(run[k].cpus[c], cfg.quantum)
    ensures WayOut(run[k].cpus[c].pc) + OwnSteps(acts, c, j, k) <= WayOut(run[j].cpus[c].pc)
    decreases k - j
  {
    if j < k {
      StepWayOut(cfg, run, acts, j, c, p);
      WayOutUntil(cfg, run, acts, j + 1, k, c, p);
    }
  }

  // Once the quantum is used up, c holds p for at most three more of its steps: the
  // next one lets p go.
  lemma LeavesAfterQuantum(cfg: Config, run: seq<State>, acts: seq<Action>, i: nat, j: nat, k: nat, c: nat, p: Pcb)
    requires ValidConfig(cfg) && IsRun(cfg, run, acts) && Stay(run, acts, i, k, c, p) && i < j <= k
    requires NumRuns(run, acts, c, i + 1, j) == cfg.quantum >= 1
    ensures OwnSteps(acts, c, j, k) <= 3
  {
    StayCounting(cfg, run, acts, i, j, c, p);
    WayOutUntil(cfg, run, acts, j, k, c, p);
    HolderKnows(cfg, run, acts, k, c, p);
    UsedUp(cfg, run[k], c, p);
  }

  // How c lets p go.
  lemma OwnLeave(cfg: Config, s: State, c: nat, p: Pcb, n: nat)
    requires OwnOk(cfg, s, c) && HolderOk(cfg, s, c, p) && Counting(s.cpus[c], n)
    requires !Holds(CpuDo(cfg, s, c), c, p)
    ensures var s' := CpuDo(cfg, s, c);
      if s.lives[p].pc == p.size then s'.finished == s.finished + [p] && PutBy(cfg, s, CpuStep(c)).None?
      else s'.finished == s.finished && n == cfg.quantum >= 1 && PutBy(cfg, s, CpuStep(c)) == Some(p)
  {
  }

  // When p leaves c, it is finished exactly if its program has ended; otherwise c has
  // run it exactly cfg.quantum times since taking it, and puts it back: it joins the
  // ready processes behind all it does not outrank, or is dropped by a full level. So
  // with a quantum below 1, p leaves only when it is finished.
  lemma LeavesFinishedOrPutBack(cfg: Config, run: seq<State>, acts: seq<Action>, i: nat, j: nat, c: nat, p: Pcb)
    requires ValidConfig(cfg) && IsRun(cfg, run, acts) && Stay(run, acts, i, j, c, p)
    requires j < |acts| && !Holds(run[j + 1], c, p)
    ensures acts[j] == CpuStep(c) && p in run[j].lives && p.prio < |run[j].ready|
    ensures run[j].lives[p].pc == p.size ==>
      run[j + 1].finished == run[j].finished + [p] && Line(run[j + 1]) == Line(run[j])
    ensures run[j].lives[p].pc != p.size ==>
      && NumRuns(run, acts, c, i + 1, j) == cfg.quantum >= 1 && run[j + 1].finished == run[j].finished
      && (if |run[j].ready[p.prio]| < MAX_QUEUE_SIZE
          then JoinsBehind(Line(run[j]), p, Line(run[j + 1])) && run[j + 1].dropped == run[j].dropped
          else Line(run[j + 1]) == Line(run[j]) && run[j + 1].dropped == run[j].dropped + [p])
  {
    StayCounting(cfg, run, acts, i, j, c, p);
    HolderKnows(cfg, run, acts, j, c, p);
    if acts[j] != CpuStep(c) { OtherStep(cfg, run, acts, j, c); }
    OwnStep(cfg, run, acts, j, c);
    OwnLeave(cfg, run[j], c, p, NumRuns(run, acts, c, i + 1, j));
    HoldersPrio(cfg, run, acts, j, c, p);
    RunLine(cfg, run, acts, j);
    assert !IsFetch(run[j], acts[j]);
  }

  lemma HoldersPrio(cfg: Config, run: seq<State>, acts: seq<Action>, j: nat, c: nat, p: Pcb)
    requires ValidConfig(cfg) && IsRun(cfg, run, acts) && j < |run| && Holds(run[j], c, p)
    ensures p.prio < |run[j].ready| == MAX_PRIO
  {
    RunInv(cfg, run, acts, j);
    HolderKnows(cfg, run, acts, j, c, p);
    assert IsLoaded(cfg, run[j].ld, p);
  }

  lemma OwnProgress(cfg: Config, s: State, c: nat, p: Pcb)
    requires OwnOk(cfg, s, c) && HolderOk(cfg, s, c, p)
    ensures var s' := CpuDo(cfg, s, c);
      p in s'.lives && s'.lives[p].pc == s.lives[p].pc + if Runs(s, CpuStep(c), c) && p.size > 0 then 1 else 0
  {
  }

  lemma OtherProgress(cfg: Config, s: State, a: Action, c: nat, p: Pcb)
    requires Inv(cfg, s) && Enabled(cfg, s, a) && a != CpuStep(c) && HolderOk(cfg, s, c, p)
    ensures p in Do(cfg, s, a).lives && Do(cfg, s, a).lives[p] == s.lives[p]
  {
    OnCpu(s.cpus, c, p);
    match a
    case CpuStep(d) =>
      CpuStepFrame(cfg, s, d);
      OnlyOn(cfg, s, c, p);
      assert p in s.lives.Keys;
    case LoaderStep => LoaderKeepsLives(cfg, s, p);
    case Tick =>
  }

  lemma StepProgress(cfg: Config, run: seq<State>, acts: seq<Action>, k: nat, c: nat, p: Pcb)
    requires ValidConfig(cfg) && IsRun(cfg, run, acts) && k < |acts| && Holds(run[k], c, p)
    ensures p in run[k].lives && p in run[k + 1].lives
    ensures run[k + 1].lives[p].pc ==
      run[k].lives[p].pc + if Runs(run[k], acts[k], c) && p.size > 0 then 1 else 0
  {
    HolderKnows(cfg, run, acts, k, c, p);
    if acts[k] == CpuStep(c) {
      OwnStep(cfg, run, acts, k, c);
      OwnProgress(cfg, run[k], c, p);
    } else {
      RunInv(cfg, run, acts, k);
      StepOfRun(cfg, run, acts, k);
      OtherProgress(cfg, run[k], acts[k], c, p);
    }
  }

  // While c holds p, p advances by the calls of run that c makes, and by nothing else.
  lemma {:induction false} AdvancesByRuns(cfg: Config, run: seq<State>, acts: seq<Action>,
                                          i: nat, j: nat, c: nat, p: Pcb)
    requires ValidConfig(cfg) && IsRun(cfg, run, acts) && i <= j <= |acts|
    requires Holds(run[i], c, p) && forall m :: i <= m <= j ==> Holds(run[m], c, p)
    ensures p in run[i].lives && p in run[j].lives
    ensures run[j].lives[p].pc == run[i].lives[p].pc + if p.size > 0 then NumRuns(run, acts, c, i, j) else 0
    decreases j - i
  {
    HolderKnows(cfg, run, acts, i, c, p);
    if i < j {
      StepProgress(cfg, run, acts, i, c, p);
      AdvancesByRuns(cfg, run, acts, i + 1, j, c, p);
    }
  }

  /* ---------- The end of a round ---------- */

  // The step lets c's process go: it is finished, or put back.
  predicate LetsGo(s: State, s': State, c: nat) {
    c < |s.cpus| && c < |s'.cpus| && s.cpus[c].proc.Some? && s'.cpus[c].proc.None?
  }

  // The step detaches c from the timer.
  predicate Detaches(s: State, s': State, c: nat) {
    && c < |s.slots.clients| && c < |s'.slots.clients|
    && !s.slots.clients[c].mode.Left? && s'.slots.clients[c].mode.Left?
  }

  lemma OwnLetsGo(cfg: Config, s: State, c: nat)
    requires OwnOk(cfg, s, c) && LetsGo(s, CpuDo(cfg, s, c), c)
    ensures CpuDo(cfg, s, c).cpus[c].pc.Fetch?
  {
  }

  lemma OwnFetch(cfg: Config, s: State, c: nat)
    requires OwnOk(cfg, s, c) && s.cpus[c].pc.Fetch?
    ensures var v := CpuDo(cfg, s, c).cpus[c]; v.pc.Recheck? && v.proc == Got(s.ready).0
  {
  }

  lemma OwnIdleFetch(cfg: Config, s: State, c: nat)
    requires OwnOk(cfg, s, c) && s.cpus[c].pc.FetchIdle?
    ensures var v := CpuDo(cfg, s, c).cpus[c];
      v.pc == (if Got(s.ready).0.Some? then Recheck else IdleSlot) && v.proc == Got(s.ready).0
  {
  }

  lemma OwnRecheck(cfg: Config, s: State, c: nat)
    requires OwnOk(cfg, s, c) && s.cpus[c].pc.Recheck?
    ensures var v := CpuDo(cfg, s, c).cpus[c];
      && v.proc == s.cpus[c].proc
      && v.pc == if v.proc.Some? then Running else if s.done then Halting else SkipSlot
  {
  }

  lemma OwnHalting(cfg: Config, s: State, c: nat)
    requires OwnOk(cfg, s, c) && s.cpus[c].pc.Halting?
    ensures CpuDo(cfg, s, c).cpus[c].pc.Halted? && Detaches(s, CpuDo(cfg, s, c), c)
  {
  }

  // c as its step k leaves it, when it takes its next step.
  lemma AtNext(cfg: Config, run: seq<State>, acts: seq<Action>, k: nat, m: nat, c: nat)
    requires ValidConfig(cfg) && IsRun(cfg, run, acts) && Next(acts, c, k, m)
    ensures OwnOk(cfg, run[k], c) && run[k + 1] == CpuDo(cfg, run[k], c)
    ensures OwnOk(cfg, run[m], c) && run[m + 1] == CpuDo(cfg, run[m], c)
    ensures c < |run[k + 1].cpus| && run[m].cpus[c] == run[k + 1].cpus[c]
  {
    OwnStep(cfg, run, acts, k, c);
    OwnStep(cfg, run, acts, m, c);
    HasCpus(cfg, run, acts, k);
    HasCpus(cfg, run, acts, k + 1);
    Waits(cfg, run, acts, k + 1, m, c);
  }

  lemma GotLine(cfg: Config, run: seq<State>, acts: seq<Action>, k: nat)
    requires ValidConfig(cfg) && IsRun(cfg, run, acts) && k < |run|
    ensures Got(run[k].ready).0 == if Line(run[k]) == [] then None else Some(Line(run[k])[0])
  {
    RunInv(cfg, run, acts, k);
    GotIsHead(run[k].ready);
  }

  // After a process has been let go, the next step of c is get_proc and the one after
  // it tests again. If get_proc has found all levels empty, c then detaches if done was
  // set at that test, and calls next_slot if not; otherwise it holds the head of the
  // line and goes on to run it.
  lemma RoundAfterProcess(cfg: Config, run: seq<State>, acts: seq<Action>, k: nat, m: nat, n: nat, q: nat, c: nat)
    requires ValidConfig(cfg) && IsRun(cfg, run, acts)
    requires Next(acts, c, k, m) && Next(acts, c, m, n) && Next(acts, c, n, q)
    requires LetsGo(run[k], run[k + 1], c)
    ensures Fetches(run[m], acts[m], c)
    ensures Line(run[m]) == [] && run[n].done ==> Detaches(run[q], run[q + 1], c)
    ensures Line(run[m]) == [] && !run[n].done ==> P.CallsSlot(run[q], acts[q], c)
    ensures Line(run[m]) != [] ==> Holds(run[q], c, Line(run[m])[0]) && run[q].cpus[c].pc.Running?
  {
    AtNext(cfg, run, acts, k, m, c);
    AtNext(cfg, run, acts, m, n, c);
    AtNext(cfg, run, acts, n, q, c);
    GotLine(cfg, run, acts, m);
    OwnLetsGo(cfg, run[k], c);
    OwnFetch(cfg, run[m], c);
    OwnRecheck(cfg, run[n], c);
    if Line(run[m]) == [] && run[n].done { OwnHalting(cfg, run[q], c); }
  }

  // A CPU that takes the head of the loop without a process calls get_proc next; if that
  // finds all levels empty, its next step calls next_slot, done or not.
  lemma IdleRound(cfg: Config, run: seq<State>, acts: seq<Action>, k: nat, m: nat, n: nat, c: nat)
    requires ValidConfig(cfg) && IsRun(cfg, run, acts) && Next(acts, c, k, m) && Next(acts, c, m, n)
    requires P.TakesHead(run[k], acts[k], c) && run[k].cpus[c].proc.None?
    ensures Fetches(run[m], acts[m], c)
    ensures Line(run[m]) == [] ==> P.CallsSlot(run[n], acts[n], c)
    ensures Line(run[m]) != [] ==> Holds(run[n], c, Line(run[m])[0]) && run[n].cpus[c].pc.Recheck?
  {
    AtNext(cfg, run, acts, k, m, c);
    AtNext(cfg, run, acts, m, n, c);
    GotLine(cfg, run, acts, m);
    IdleHead(cfg, run[k], c);
    OwnIdleFetch(cfg, run[m], c);
  }

  lemma IdleHead(cfg: Config, s: State, c: nat)
    requires OwnOk(cfg, s, c) && s.cpus[c].pc.Top? && s.cpus[c].proc.None?
    ensures CpuDo(cfg, s, c).cpus[c].pc.FetchIdle?
  {
  }

  /* ---------- A CPU that stops ---------- */

  predicate Leaving(s: State, c: nat) { c < |s.cpus| && (s.cpus[c].pc.Halting? || s.cpus[c].pc.Halted?) }

  lemma StaysLeaving(cfg: Config, run: seq<State>, acts: seq<Action>, k: nat, c: nat)
    requires ValidConfig(cfg) && IsRun(cfg, run, acts) && k < |acts| && Leaving(run[k], c)
    ensures Leaving(run[k + 1], c)
  {
    if acts[k] == CpuStep(c) {
      OwnStep(cfg, run, acts, k, c);
      OwnHalting(cfg, run[k], c);
    } else {
      OtherStep(cfg, run, acts, k, c);
    }
  }

  lemma {:induction false} LeavingForGood(cfg: Config, run: seq<State>, acts: seq<Action>, i: nat, j: nat, c: nat)
    requires ValidConfig(cfg) && IsRun(cfg, run, acts) && i <= j < |run| && Leaving(run[i], c)
    ensures Leaving(run[j], c)
    decreases j - i
  {
    if i < j {
      StaysLeaving(cfg, run, acts, i, c);
      LeavingForGood(cfg, run, acts, i + 1, j, c);
    }
  }

  // If after such a round done is set at the test, c does not call next_slot again, nor
  // take the head of its loop, whatever follows.
  lemma NeverCallsAgain(cfg: Config, run: seq<State>, acts: seq<Action>, k: nat, m: nat, n: nat, j: nat, c: nat)
    requires ValidConfig(cfg) && IsRun(cfg, run, acts) && Next(acts, c, k, m) && Next(acts, c, m, n) && n < j < |acts|
    requires LetsGo(run[k], run[k + 1], c) && Line(run[m]) == [] && run[n].done
    ensures !P.CallsSlot(run[j], acts[j], c) && !P.TakesHead(run[j], acts[j], c)
  {
    AtNext(cfg, run, acts, k, m, c);
    AtNext(cfg, run, acts, m, n, c);
    GotLine(cfg, run, acts, m);
    OwnLetsGo(cfg, run[k], c);
    OwnFetch(cfg, run[m], c);
    OwnRecheck(cfg, run[n], c);
    LeavingForGood(cfg, run, acts, n + 1, j, c);
  }

  // The last step of c before state i, if there is one.
  lemma {:induction false} LastOwn(acts: seq<Action>, c: nat, i: nat) returns (j: int)
    requires i <= |acts|
    ensures -1 <= j < i && (j >= 0 ==> acts[j] == CpuStep(c))
    ensures forall m :: j < m < i ==> acts[m] != CpuStep(c)
  {
    if i == 0 {
      j := -1;
    } else if acts[i - 1] == CpuStep(c) {
      j := i - 1;
    } else {
      j := LastOwn(acts, c, i - 1);
    }
  }

  lemma LastStep(cfg: Config, run: seq<State>, acts: seq<Action>, i: nat, c: nat) returns (j: nat)
    requires ValidConfig(cfg) && IsRun(cfg, run, acts) && i < |run| && c < cfg.numCpus
    requires c < |run[i].cpus| && !run[i].cpus[c].pc.Top?
    ensures j < i && acts[j] == CpuStep(c) && forall m :: j < m < i ==> acts[m] != CpuStep(c)
    ensures OwnOk(cfg, run[j], c) && run[j + 1] == CpuDo(cfg, run[j], c)
    ensures c < |run[j + 1].cpus| && run[j + 1].cpus[c] == run[i].cpus[c]
  {
    StartsAtTop(cfg, run, acts, c);
    var last := LastOwn(acts, c, i);
    CpuThere(cfg, run, acts, last + 1, c);
    Waits(cfg, run, acts, last + 1, i, c);
    j := last;
    OwnStep(cfg, run, acts, j, c);
  }

  lemma CpuThere(cfg: Config, run: seq<State>, acts: seq<Action>, k: nat, c: nat)
    requires ValidConfig(cfg) && IsRun(cfg, run, acts) && k < |run| && c < cfg.numCpus
    ensures c < |run[k].cpus|
  {
    HasCpus(cfg, run, acts, k);
  }

  lemma StartsAtTop(cfg: Config, run: seq<State>, acts: seq<Action>, c: nat)
    requires IsRun(cfg, run, acts) && c < cfg.numCpus
    ensures c < |run[0].cpus| && run[0].cpus[c].pc.Top?
  {
  }

  lemma BeforeHalting(cfg: Config, s: State, c: nat)
    requires OwnOk(cfg, s, c) && CpuDo(cfg, s, c).cpus[c].pc.Halting?
    ensures s.cpus[c].pc.Recheck? && s.cpus[c].proc.None? && s.done
  {
  }

  lemma BeforeEmptyRecheck(cfg: Config, s: State, c: nat)
    requires OwnOk(cfg, s, c) && CpuDo(cfg, s, c).cpus[c].pc.Recheck? && CpuDo(cfg, s, c).cpus[c].proc.None?
    ensures s.cpus[c].pc.Fetch? && Got(s.ready).0.None?
  {
  }

  lemma BeforeFetch(cfg: Config, s: State, c: nat)
    requires OwnOk(cfg, s, c) && CpuDo(cfg, s, c).cpus[c].pc.Fetch?
    ensures LetsGo(s, CpuDo(cfg, s, c), c)
  {
  }

  lemma HaltedHasLeft(cfg: Config, run: seq<State>, acts: seq<Action>, k: nat, c: nat)
    requires ValidConfig(cfg) && IsRun(cfg, run, acts) && k < |run| && c < cfg.numCpus
    ensures c < |run[k].cpus| && c < |run[k].slots.clients|
    ensures run[k].cpus[c].pc.Halted? <==> run[k].slots.clients[c].mode.Left?
  {
    RunInv(cfg, run, acts, k);
    assert CpuModeOk(run[k].cpus[c].pc, run[k].slots.clients[c].mode);
  }

  lemma BeforeHalted(cfg: Config, s: State, c: nat)
    requires OwnOk(cfg, s, c) && CpuDo(cfg, s, c).cpus[c].pc.Halted?
    ensures s.cpus[c].pc.Halting?
  {
  }

  lemma DetachIsHalting(cfg: Config, run: seq<State>, acts: seq<Action>, q: nat, c: nat)
    requires ValidConfig(cfg) && IsRun(cfg, run, acts) && q < |acts| && c < cfg.numCpus
    requires Detaches(run[q], run[q + 1], c)
    ensures acts[q] == CpuStep(c) && c < |run[q].cpus| && run[q].cpus[c].pc.Halting?
  {
    HaltedHasLeft(cfg, run, acts, q, c);
    HaltedHasLeft(cfg, run, acts, q + 1, c);
    if acts[q] == CpuStep(c) {
      OwnStep(cfg, run, acts, q, c);
      BeforeHalted(cfg, run[q], c);
    } else {
      OtherStep(cfg, run, acts, q, c);
    }
  }

  // A CPU detaches only after such a round: it let a process go, its get_proc found all
  // levels empty, and done was set when it tested again. So an idle CPU never does.
  lemma DetachesOnlySo(cfg: Config, run: seq<State>, acts: seq<Action>, q: nat, c: nat)
    returns (k: nat, m: nat, n: nat)
    requires ValidConfig(cfg) && IsRun(cfg, run, acts) && q < |acts| && c < cfg.numCpus
    requires Detaches(run[q], run[q + 1], c)
    ensures Next(acts, c, k, m) && Next(acts, c, m, n) && Next(acts, c, n, q)
    ensures LetsGo(run[k], run[k + 1], c) && Fetches(run[m], acts[m], c) && Line(run[m]) == [] && run[n].done
  {
    DetachIsHalting(cfg, run, acts, q, c);
    n := LastStep(cfg, run, acts, q, c);
    BeforeHalting(cfg, run[n], c);
    m := LastStep(cfg, run, acts, n, c);
    BeforeEmptyRecheck(cfg, run[m], c);
    GotLine(cfg, run, acts, m);
    k := LastStep(cfg, run, acts, m, c);
    BeforeFetch(cfg, run[k], c);
  }
}

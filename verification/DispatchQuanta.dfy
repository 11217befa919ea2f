/** How often a process is put back: a program of n instructions takes as many time
    quanta as n needs, rounded up, however the CPUs share the processes. */
module DispatchQuanta {
  import opened Options
  import opened ReadyQueue
  import opened Mlq
  import opened Dispatch
  import opened Census
  import opened DispatchInvariant
  import opened DispatchRounds
  import DS = DispatchSteps

  // The step is a CPU putting p back.
  predicate PutsBack(s: State, a: Action, p: Pcb) {
    a.CpuStep? && a.c < |s.cpus| && s.cpus[a.c].pc.Putting? && s.cpus[a.c].proc == Some(p)
  }

  // How many of the first k steps are.
  function NumPutBacks(run: seq<State>, acts: seq<Action>, p: Pcb, k: nat): nat
    requires k <= |acts| < |run|
  {
    if k == 0 then 0 else NumPutBacks(run, acts, p, k - 1) + if PutsBack(run[k - 1], acts[k - 1], p) then 1 else 0
  }

  // The instructions executed since the process was taken.
  function Used(v: Cpu): int { if v.pc.Recheck? && v.left == 0 then 0 else v.used }

  ghost predicate OnNoCpu(s: State, p: Pcb) { forall c :: 0 <= c < |s.cpus| ==> !Holds(s, c, p) }

  // Where p stands when `base` instructions were executed in the quanta it has used up.
  ghost predicate Share(cfg: Config, s: State, p: Pcb, base: int) {
    if p !in s.lives then base == 0
    else
      && (forall c :: 0 <= c < |s.cpus| && Holds(s, c, p) ==> s.lives[p].pc == base + Used(s.cpus[c]))
      && (OnNoCpu(s, p) && Occ(s.finished, p) == 0 ==> s.lives[p].pc == base)
      && (Occ(s.finished, p) > 0 ==> base < p.size <= base + cfg.quantum)
  }

  /* ---------- The CPU that holds the process ---------- */

  lemma HolderShare(cfg: Config, s: State, c: nat, p: Pcb)
    requires OwnOk(cfg, s, c) && HolderOk(cfg, s, c, p) && p.size >= 1 && Holds(CpuDo(cfg, s, c), c, p)
    ensures var s' := CpuDo(cfg, s, c);
      && p in s'.lives && !PutsBack(s, CpuStep(c), p)
      && s'.lives[p].pc - Used(s'.cpus[c]) == s.lives[p].pc - Used(s.cpus[c])
  {
    OwnProgress(cfg, s, c, p);
    if AtTimer(s.cpus[c].pc) {
      TimerCounting(cfg, s, c, p, Used(s.cpus[c]));
    } else {
      DataCounting(cfg, s, c, p, Used(s.cpus[c]));
    }
  }

  lemma LeaverShare(cfg: Config, s: State, c: nat, p: Pcb)
    requires OwnOk(cfg, s, c) && HolderOk(cfg, s, c, p) && cfg.quantum >= 1 && !Holds(CpuDo(cfg, s, c), c, p)
    ensures var s' := CpuDo(cfg, s, c);
      && s'.lives == s.lives
      && (if PutsBack(s, CpuStep(c), p) then s'.finished == s.finished && Used(s.cpus[c]) == cfg.quantum
          else s'.finished == s.finished + [p] && s.lives[p].pc == p.size && 1 <= Used(s.cpus[c]) <= cfg.quantum)
  {
  }

  // Where p stands while only c holds it, and once nobody does.
  lemma ShareOnCpu(cfg: Config, s: State, c: nat, p: Pcb, base: int)
    requires Holds(s, c, p) && (forall d :: 0 <= d < |s.cpus| && d != c ==> !Holds(s, d, p))
    requires Occ(s.finished, p) == 0 && p in s.lives && s.lives[p].pc == base + Used(s.cpus[c])
    ensures Share(cfg, s, p, base)
  {
  }

  lemma ShareOnNone(cfg: Config, s: State, p: Pcb, base: int)
    requires OnNoCpu(s, p) && p in s.lives
    requires if Occ(s.finished, p) > 0 then base < p.size <= base + cfg.quantum else s.lives[p].pc == base
    ensures Share(cfg, s, p, base)
  {
  }

  lemma Stays(cfg: Config, s: State, c: nat, p: Pcb)
    requires CpuEnabled(s, c) && Holds(s, c, p) && Holds(CpuDo(cfg, s, c), c, p)
    ensures CpuDo(cfg, s, c).finished == s.finished
  {
  }

  lemma HeldShare(cfg: Config, s: State, s': State, c: nat, p: Pcb, base: int)
    requires CpuFrame(s, s', c) && Holds(s, c, p) && Holds(s', c, p) && p in s.lives && p in s'.lives
    requires forall d :: 0 <= d < |s.cpus| && d != c ==> !Holds(s, d, p)
    requires Share(cfg, s, p, base) && s'.finished == s.finished && Occ(s.finished, p) == 0
    requires s'.lives[p].pc - Used(s'.cpus[c]) == s.lives[p].pc - Used(s.cpus[c])
    ensures Share(cfg, s', p, base)
  {
    forall d | 0 <= d < |s'.cpus| && d != c ensures !Holds(s', d, p) { assert !Holds(s, d, p); }
    ShareOnCpu(cfg, s', c, p, base);
  }

  lemma LeftShare(cfg: Config, s: State, s': State, c: nat, p: Pcb, base: int)
    requires CpuFrame(s, s', c) && !Holds(s', c, p) && p in s.lives && s'.lives == s.lives
    requires forall d :: 0 <= d < |s.cpus| && d != c ==> !Holds(s, d, p)
    requires if Occ(s'.finished, p) > 0 then base < p.size <= base + cfg.quantum else s.lives[p].pc == base
    ensures Share(cfg, s', p, base)
  {
    forall d | 0 <= d < |s'.cpus| ensures !Holds(s', d, p) { if d != c { assert !Holds(s, d, p); } }
    ShareOnNone(cfg, s', p, base);
  }

  lemma KeptShare(cfg: Config, s: State, c: nat, p: Pcb, base: int)
    requires Counted(cfg, s) && OwnOk(cfg, s, c) && HolderOk(cfg, s, c, p) && Share(cfg, s, p, base) && p.size >= 1
    requires Holds(CpuDo(cfg, s, c), c, p)
    ensures !PutsBack(s, CpuStep(c), p) && Share(cfg, CpuDo(cfg, s, c), p, base)
  {
    CpuStepFrame(cfg, s, c);
    OnlyOn(cfg, s, c, p);
    HolderShare(cfg, s, c, p);
    Stays(cfg, s, c, p);
    HeldShare(cfg, s, CpuDo(cfg, s, c), c, p, base);
  }

  lemma GoneShare(cfg: Config, s: State, c: nat, p: Pcb, base: int)
    requires Counted(cfg, s) && OwnOk(cfg, s, c) && HolderOk(cfg, s, c, p) && Share(cfg, s, p, base)
    requires cfg.quantum >= 1 && !Holds(CpuDo(cfg, s, c), c, p)
    ensures Share(cfg, CpuDo(cfg, s, c), p, base + if PutsBack(s, CpuStep(c), p) then cfg.quantum else 0)
  {
    CpuStepFrame(cfg, s, c);
    OnlyOn(cfg, s, c, p);
    LeaverShare(cfg, s, c, p);
    OccAppend(s.finished, p, p);
    LeftShare(cfg, s, CpuDo(cfg, s, c), c, p, base + if PutsBack(s, CpuStep(c), p) then cfg.quantum else 0);
  }

  /* ---------- The other steps ---------- */

  // The others do not change where p stands.
  lemma SameShare(cfg: Config, s: State, s': State, p: Pcb, base: int)
    requires Share(cfg, s, p, base) && p in s.lives && p in s'.lives && s'.lives[p].pc == s.lives[p].pc
    requires |s'.cpus| == |s.cpus| && Occ(s'.finished, p) == Occ(s.finished, p)
    requires forall d :: 0 <= d < |s.cpus| && (Holds(s, d, p) || Holds(s', d, p)) ==> s'.cpus[d] == s.cpus[d]
    ensures Share(cfg, s', p, base)
  {
    if OnNoCpu(s', p) {
      forall d | 0 <= d < |s.cpus| ensures !Holds(s, d, p) { assert !Holds(s', d, p); }
    }
  }

  // CPU c takes p, which was ready.
  lemma TakenShare(cfg: Config, s: State, s': State, c: nat, p: Pcb, base: int)
    requires CpuFrame(s, s', c) && OnNoCpu(s, p) && p in s.lives && Occ(s.finished, p) == 0 && Share(cfg, s, p, base)
    requires s'.lives == s.lives && s'.finished == s.finished && Holds(s', c, p) && Used(s'.cpus[c]) == 0
    ensures Share(cfg, s', p, base)
  {
    forall d | 0 <= d < |s'.cpus| && d != c ensures !Holds(s', d, p) { assert !Holds(s, d, p); }
    ShareOnCpu(cfg, s', c, p, base);
  }

  lemma TakerShare(cfg: Config, s: State, c: nat, p: Pcb, base: int)
    requires Counted(cfg, s) && OwnOk(cfg, s, c) && !Holds(s, c, p) && Holds(CpuDo(cfg, s, c), c, p)
    requires Share(cfg, s, p, base)
    ensures Share(cfg, CpuDo(cfg, s, c), p, base)
  {
    CpuStepFrame(cfg, s, c);
    Taken(cfg, s, c, p);
    ReadyIsElsewhere(cfg, s, p);
    TakenShare(cfg, s, CpuDo(cfg, s, c), c, p, base);
  }

  lemma Taken(cfg: Config, s: State, c: nat, p: Pcb)
    requires OwnOk(cfg, s, c) && !Holds(s, c, p) && Holds(CpuDo(cfg, s, c), c, p)
    ensures var s' := CpuDo(cfg, s, c);
      && s'.lives == s.lives && s'.finished == s.finished && InReady(s.ready, p) > 0
      && s'.cpus[c].pc.Recheck? && s'.cpus[c].left == 0
  {
    if Got(s.ready).0 == Some(p) { GotFromReady(s.ready, p); }
  }

  lemma ReadyIsElsewhere(cfg: Config, s: State, p: Pcb)
    requires Counted(cfg, s) && InReady(s.ready, p) > 0
    ensures OnNoCpu(s, p) && Occ(s.finished, p) == 0 && p in s.lives
  {
    assert Places(cfg, s, p) == if p in s.lives then 1 else 0;
    forall c | 0 <= c < |s.cpus| ensures !Holds(s, c, p) { OnCpu(s.cpus, c, p); }
  }

  lemma CpuShare(cfg: Config, s: State, c: nat, p: Pcb, base: int)
    requires Inv(cfg, s) && CpuEnabled(s, c) && Share(cfg, s, p, base) && cfg.quantum >= 1 && p.size >= 1
    ensures Share(cfg, CpuDo(cfg, s, c), p, base + if PutsBack(s, CpuStep(c), p) then cfg.quantum else 0)
  {
    var s' := CpuDo(cfg, s, c);
    CpuStepFrame(cfg, s, c);
    assert p in s'.lives <==> p in s'.lives.Keys;
    assert p in s.lives <==> p in s.lives.Keys;
    if Holds(s, c, p) {
      DS.OwnHolds(cfg, s, c);
      assert HolderOk(cfg, s, c, p);
      if Holds(s', c, p) { KeptShare(cfg, s, c, p, base); } else { GoneShare(cfg, s, c, p, base); }
    } else if Holds(s', c, p) {
      DS.OwnHolds(cfg, s, c);
      TakerShare(cfg, s, c, p, base);
    } else if p in s.lives {
      OthersFinish(cfg, s, c, p);
      SameShare(cfg, s, s', p, base);
    }
  }

  lemma OthersFinish(cfg: Config, s: State, c: nat, p: Pcb)
    requires CpuEnabled(s, c) && !Holds(s, c, p)
    ensures Occ(CpuDo(cfg, s, c).finished, p) == Occ(s.finished, p)
  {
    FinishedGrows(cfg, s, c);
    if s.cpus[c].proc.Some? { OccAppend(s.finished, s.cpus[c].proc.value, p); }
  }

  lemma LoaderShare(cfg: Config, s: State, p: Pcb, base: int)
    requires Inv(cfg, s) && LoaderEnabled(cfg, s) && Share(cfg, s, p, base)
    ensures Share(cfg, LoaderDo(cfg, s), p, base)
  {
    var s' := LoaderDo(cfg, s);
    LoaderStepFrame(cfg, s);
    if p in s.lives {
      LoaderKeepsPc(cfg, s, p);
      SameShare(cfg, s, s', p, base);
    } else if p in s'.lives {
      LoadedFresh(cfg, s, p);
      forall c | 0 <= c < |s'.cpus| ensures !Holds(s', c, p) { assert !Holds(s, c, p); }
      ShareOnNone(cfg, s', p, base);
    }
  }

  lemma LoaderKeepsPc(cfg: Config, s: State, p: Pcb)
    requires Counted(cfg, s) && LoaderEnabled(cfg, s) && p in s.lives
    ensures p in LoaderDo(cfg, s).lives && LoaderDo(cfg, s).lives[p].pc == s.lives[p].pc
  {
    assert IsLoaded(cfg, s.ld, p);
  }

  lemma LoadedFresh(cfg: Config, s: State, p: Pcb)
    requires Counted(cfg, s) && LoaderEnabled(cfg, s) && p !in s.lives && p in LoaderDo(cfg, s).lives
    ensures LoaderDo(cfg, s).lives[p].pc == 0 && Occ(s.finished, p) == 0 && OnNoCpu(s, p)
  {
    assert Places(cfg, s, p) == 0;
    forall c | 0 <= c < |s.cpus| ensures !Holds(s, c, p) { OnCpu(s.cpus, c, p); }
  }

  lemma StepShare(cfg: Config, s: State, a: Action, p: Pcb, base: int)
    requires Inv(cfg, s) && Enabled(cfg, s, a) && Share(cfg, s, p, base) && cfg.quantum >= 1 && p.size >= 1
    ensures Share(cfg, Do(cfg, s, a), p, base + if PutsBack(s, a, p) then cfg.quantum else 0)
  {
    match a
    case CpuStep(c) => CpuShare(cfg, s, c, p, base);
    case LoaderStep => LoaderShare(cfg, s, p, base);
    case Tick => if p in s.lives { SameShare(cfg, s, Do(cfg, s, a), p, base); }
  }

  lemma RunShare(cfg: Config, run: seq<State>, acts: seq<Action>, k: nat, p: Pcb, base: int)
    requires ValidConfig(cfg) && IsRun(cfg, run, acts) && k < |acts| && Share(cfg, run[k], p, base)
    requires cfg.quantum >= 1 && p.size >= 1
    ensures Share(cfg, run[k + 1], p, base + if PutsBack(run[k], acts[k], p) then cfg.quantum else 0)
  {
    StepOfRun(cfg, run, acts, k);
    RunInv(cfg, run, acts, k);
    StepShare(cfg, run[k], acts[k], p, base);
  }

  lemma StartShare(cfg: Config, run: seq<State>, acts: seq<Action>, p: Pcb)
    requires IsRun(cfg, run, acts)
    ensures Share(cfg, run[0], p, 0)
  {
  }

  // bases[k]: the instructions of the quanta that p has used up in the first k steps.
  ghost predicate AreBases(cfg: Config, run: seq<State>, acts: seq<Action>, p: Pcb, bases: seq<int>) {
    && |bases| == |run| == |acts| + 1 && bases[0] == 0
    && forall k :: 0 <= k < |acts| ==> bases[k + 1] == bases[k] + Gain(cfg, run[k], acts[k], p)
  }

  function Gain(cfg: Config, s: State, a: Action, p: Pcb): int { if PutsBack(s, a, p) then cfg.quantum else 0 }

  lemma NextShare(cfg: Config, run: seq<State>, acts: seq<Action>, k: nat, p: Pcb, bases: seq<int>)
    requires ValidConfig(cfg) && IsRun(cfg, run, acts) && k < |acts| && cfg.quantum >= 1 && p.size >= 1
    requires AreBases(cfg, run, acts, p, bases) && Share(cfg, run[k], p, bases[k])
    ensures Share(cfg, run[k + 1], p, bases[k + 1])
  {
    RunShare(cfg, run, acts, k, p, bases[k]);
    assert bases[k + 1] == bases[k] + Gain(cfg, run[k], acts[k], p);
  }

  lemma {:induction false} ShareUntil(cfg: Config, run: seq<State>, acts: seq<Action>,
                                      i: nat, k: nat, p: Pcb, bases: seq<int>)
    requires ValidConfig(cfg) && IsRun(cfg, run, acts) && i <= k < |run| && cfg.quantum >= 1 && p.size >= 1
    requires AreBases(cfg, run, acts, p, bases) && Share(cfg, run[i], p, bases[i])
    ensures Share(cfg, run[k], p, bases[k])
    decreases k - i
  {
    if i < k {
      NextShare(cfg, run, acts, i, p, bases);
      ShareUntil(cfg, run, acts, i + 1, k, p, bases);
    }
  }

  lemma OneMore(n: nat, q: int)
    ensures (n + 1) * q == n * q + q
  {
  }

  lemma Bases(cfg: Config, run: seq<State>, acts: seq<Action>, p: Pcb, n: nat) returns (bases: seq<int>)
    requires n < |run| == |acts| + 1
    ensures AreBases(cfg, run, acts, p, bases) && bases[n] == NumPutBacks(run, acts, p, n) * cfg.quantum
  {
    bases := seq(|run|, k requires 0 <= k < |run| => NumPutBacks(run, acts, p, k) * cfg.quantum);
    forall k | 0 <= k < |acts| ensures bases[k + 1] == bases[k] + Gain(cfg, run[k], acts[k], p) {
      OneMore(NumPutBacks(run, acts, p, k), cfg.quantum);
    }
  }

  lemma RoundedUp(n: nat, q: int, size: nat)
    requires q >= 1 && n * q < size <= n * q + q
    ensures n == (size - 1) / q
  {
    var r := size - 1 - n * q;
    assert size - 1 == n * q + r && 0 <= r < q;
    QuotientIs(n, q, r);
  }

  lemma QuotientIs(n: nat, q: int, r: int)
    requires q >= 1 && 0 <= r < q
    ensures (n * q + r) / q == n
  {
    var m := (n * q + r) / q;
    assert (n * q + r) == m * q + (n * q + r) % q;
    if m < n {
      DS.NoLonger(m + 1, n, q);
    } else if m > n {
      DS.NoLonger(n + 1, m, q);
    }
  }

  lemma FinishedIsLoaded(cfg: Config, run: seq<State>, acts: seq<Action>, k: nat, p: Pcb)
    requires ValidConfig(cfg) && IsRun(cfg, run, acts) && k < |run| && Occ(run[k].finished, p) > 0
    ensures p in run[k].lives
  {
    RunInv(cfg, run, acts, k);
    assert FinishedOk(run[k], p);
  }

  lemma FinishedShare(cfg: Config, run: seq<State>, acts: seq<Action>, k: nat, p: Pcb) returns (base: int)
    requires ValidConfig(cfg) && IsRun(cfg, run, acts) && k < |run| && Occ(run[k].finished, p) > 0
    requires cfg.quantum >= 1 && p.size >= 1
    ensures base == NumPutBacks(run, acts, p, k) * cfg.quantum && base < p.size <= base + cfg.quantum
  {
    var bases := Bases(cfg, run, acts, p, k);
    StartShare(cfg, run, acts, p);
    ShareUntil(cfg, run, acts, 0, k, p, bases);
    FinishedIsLoaded(cfg, run, acts, k, p);
    base := bases[k];
  }

  // In every run, a finished process has been put back as often as its instructions
  // fill a quantum before the last one: it has taken ceil(size / quantum) quanta.
  lemma QuantaTaken(cfg: Config, run: seq<State>, acts: seq<Action>, k: nat, p: Pcb)
    requires ValidConfig(cfg) && IsRun(cfg, run, acts) && k < |run| && Occ(run[k].finished, p) > 0
    requires cfg.quantum >= 1 && p.size >= 1
    ensures NumPutBacks(run, acts, p, k) == (p.size - 1) / cfg.quantum
  {
    var base := FinishedShare(cfg, run, acts, k, p);
    RoundedUp(NumPutBacks(run, acts, p, k), cfg.quantum, p.size);
  }
}

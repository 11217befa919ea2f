/** Where the processes are: every loaded process is in exactly one place. */
module Census {
  import opened Options
  import opened ReadyQueue
  import opened Mlq
  import opened Dispatch

  // How often p occurs in a sequence.
  function Occ(q: seq<Pcb>, p: Pcb): nat {
    if q == [] then 0 else Occ(q[..|q| - 1], p) + One(q[|q| - 1], p)
  }

  function One(q: Pcb, p: Pcb): nat { if q == p then 1 else 0 }

  function OccIn(o: Option<Pcb>, p: Pcb): nat { if o == Some(p) then 1 else 0 }

  function OnCpus(cpus: seq<Cpu>, p: Pcb): nat {
    if cpus == [] then 0 else OnCpus(cpus[..|cpus| - 1], p) + OccIn(cpus[|cpus| - 1].proc, p)
  }

  function InReady(ls: Levels, p: Pcb): nat {
    if ls == [] then 0 else InReady(ls[..|ls| - 1], p) + Occ(ls[|ls| - 1], p)
  }

  // The loader has loaded process i and not yet added it to a ready queue.
  predicate LoaderHolds(ld: Loader) {
    ld.pc.LWait? || ld.pc.LEnterWait? || ld.pc.LSlotWait? || ld.pc.LAdd?
  }

  predicate LoaderInRange(cfg: Config, ld: Loader) {
    ld.i <= |cfg.jobs| && (LoaderHolds(ld) ==> ld.i < |cfg.jobs|)
  }

  function AtLoader(cfg: Config, ld: Loader, p: Pcb): nat
    requires LoaderInRange(cfg, ld)
  {
    if LoaderHolds(ld) then One(cfg.jobs[ld.i].pcb, p) else 0
  }

  // In how many places p is.
  function Places(cfg: Config, s: State, p: Pcb): nat
    requires LoaderInRange(cfg, s.ld)
  {
    InReady(s.ready, p) + OnCpus(s.cpus, p) + AtLoader(cfg, s.ld, p) + Occ(s.finished, p) + Occ(s.dropped, p)
  }

  function NumLoaded(ld: Loader): nat { if LoaderHolds(ld) then ld.i + 1 else ld.i }

  predicate IsLoaded(cfg: Config, ld: Loader, p: Pcb) {
    1 <= p.pid <= NumLoaded(ld) && p.pid <= |cfg.jobs| && cfg.jobs[p.pid - 1].pcb == p
  }

  ghost predicate Counted(cfg: Config, s: State) {
    && ValidConfig(cfg)
    && LoaderInRange(cfg, s.ld)
    && WellPlaced(s.ready)
    && (forall p :: p in s.lives <==> IsLoaded(cfg, s.ld, p))
    && (forall p :: Places(cfg, s, p) == if p in s.lives then 1 else 0)
  }

  /* ---------- Occurrences under updates ---------- */

  lemma {:induction false} OccConcat(a: seq<Pcb>, b: seq<Pcb>, p: Pcb)
    ensures Occ(a + b, p) == Occ(a, p) + Occ(b, p)
  {
    if b == [] {
      assert a + b == a;
    } else {
      assert (a + b)[..|a + b| - 1] == a + b[..|b| - 1];
      OccConcat(a, b[..|b| - 1], p);
    }
  }

  lemma OccAppend(a: seq<Pcb>, q: Pcb, p: Pcb)
    ensures Occ(a + [q], p) == Occ(a, p) + One(q, p)
  {
  }

  lemma {:induction false} OccMember(q: seq<Pcb>, p: Pcb)
    ensures p in q <==> Occ(q, p) > 0
  {
    if q != [] {
      OccMember(q[..|q| - 1], p);
      assert q == q[..|q| - 1] + [q[|q| - 1]];
    }
  }

  lemma OccRest(q: seq<Pcb>, p: Pcb)
    requires q != []
    ensures Occ(Rest(q), p) + One(q[Best(q)], p) == Occ(q, p)
  {
    var b := Best(q);
    OccConcat(q[..b], q[b + 1..], p);
    OccAppend(q[..b], q[b], p);
    OccConcat(q[..b] + [q[b]], q[b + 1..], p);
    assert q == q[..b] + [q[b]] + q[b + 1..];
  }

  lemma {:induction false} OnCpusUpdate(cpus: seq<Cpu>, c: nat, v: Cpu, p: Pcb)
    requires c < |cpus|
    ensures OnCpus(cpus[c := v], p) + OccIn(cpus[c].proc, p) == OnCpus(cpus, p) + OccIn(v.proc, p)
  {
    var n := |cpus| - 1;
    if c == n {
      assert cpus[c := v][..n] == cpus[..n];
    } else {
      assert cpus[c := v][..n] == cpus[..n][c := v];
      OnCpusUpdate(cpus[..n], c, v, p);
    }
  }

  lemma {:induction false} InReadyUpdate(ls: Levels, l: nat, q: seq<Pcb>, p: Pcb)
    requires l < |ls|
    ensures InReady(ls[l := q], p) + Occ(ls[l], p) == InReady(ls, p) + Occ(q, p)
  {
    var n := |ls| - 1;
    if l == n {
      assert ls[l := q][..n] == ls[..n];
    } else {
      assert ls[l := q][..n] == ls[..n][l := q];
      InReadyUpdate(ls[..n], l, q, p);
    }
  }

  lemma GotMoves(ls: Levels, p: Pcb)
    ensures InReady(Got(ls).1, p) + OccIn(Got(ls).0, p) == InReady(ls, p)
  {
    var top := TopLevel(ls, |ls|);
    if top.Some? {
      OccRest(ls[top.value], p);
      InReadyUpdate(ls, top.value, Rest(ls[top.value]), p);
    }
  }

  lemma PutMoves(s: State, q: Pcb, p: Pcb)
    requires q.prio < |s.ready|
    ensures InReady(PutBack(s, q).ready, p) + Occ(PutBack(s, q).dropped, p)
         == InReady(s.ready, p) + Occ(s.dropped, p) + One(q, p)
  {
    OccAppend(s.ready[q.prio], q, p);
    OccAppend(s.dropped, q, p);
    InReadyUpdate(s.ready, q.prio, Enqueued(s.ready[q.prio], q), p);
  }

  lemma {:induction false} OnCpu(cpus: seq<Cpu>, c: nat, p: Pcb)
    requires c < |cpus|
    ensures OccIn(cpus[c].proc, p) <= OnCpus(cpus, p)
  {
    if c < |cpus| - 1 { OnCpu(cpus[..|cpus| - 1], c, p); }
  }

  lemma OnTwoCpus(cpus: seq<Cpu>, c: nat, d: nat, p: Pcb)
    requires c < |cpus| && d < |cpus| && c != d
    ensures OccIn(cpus[c].proc, p) + OccIn(cpus[d].proc, p) <= OnCpus(cpus, p)
  {
    var v := cpus[c].(proc := None);
    OnCpusUpdate(cpus, c, v, p);
    OnCpu(cpus[c := v], d, p);
  }

  lemma {:induction false} InLevel(ls: Levels, l: nat, p: Pcb)
    requires l < |ls|
    ensures Occ(ls[l], p) <= InReady(ls, p)
  {
    if l < |ls| - 1 { InLevel(ls[..|ls| - 1], l, p); }
  }

  lemma {:induction false} NoneReady(ls: Levels, p: Pcb)
    requires forall l :: 0 <= l < |ls| ==> ls[l] == []
    ensures InReady(ls, p) == 0
  {
    if ls != [] { NoneReady(ls[..|ls| - 1], p); }
  }

  lemma {:induction false} NoneOnCpus(cpus: seq<Cpu>, p: Pcb)
    requires forall c :: 0 <= c < |cpus| ==> cpus[c].proc.None?
    ensures OnCpus(cpus, p) == 0
  {
    if cpus != [] { NoneOnCpus(cpus[..|cpus| - 1], p); }
  }

  /* ---------- Every step keeps the number of places ---------- */

  lemma QuietKeepsPlaces(cfg: Config, s: State, s': State, c: nat, v: Cpu, p: Pcb)
    requires LoaderInRange(cfg, s.ld) && c < |s.cpus| && v.proc == s.cpus[c].proc
    requires s'.cpus == s.cpus[c := v] && s'.ld == s.ld && s'.ready == s.ready
    requires s'.finished == s.finished && s'.dropped == s.dropped
    ensures Places(cfg, s', p) == Places(cfg, s, p)
  {
    OnCpusUpdate(s.cpus, c, v, p);
  }

  // The finishing branch of the first test.
  lemma FinishKeepsPlaces(cfg: Config, s: State, s': State, c: nat, v: Cpu, p: Pcb)
    requires LoaderInRange(cfg, s.ld) && c < |s.cpus| && s.cpus[c].proc.Some? && v.proc.None?
    requires s'.cpus == s.cpus[c := v] && s'.ld == s.ld && s'.ready == s.ready
    requires s'.finished == s.finished + [s.cpus[c].proc.value] && s'.dropped == s.dropped
    ensures Places(cfg, s', p) == Places(cfg, s, p)
  {
    OnCpusUpdate(s.cpus, c, v, p);
    OccAppend(s.finished, s.cpus[c].proc.value, p);
  }

  lemma TopKeepsPlaces(cfg: Config, s: State, c: nat, p: Pcb)
    requires LoaderInRange(cfg, s.ld) && CpuEnabled(s, c) && s.cpus[c].pc.Top?
    ensures Places(cfg, AtTop(s, c), p) == Places(cfg, s, p)
  {
    var s' := AtTop(s, c);
    if s'.cpus[c].proc.None? && s.cpus[c].proc.Some? {
      FinishKeepsPlaces(cfg, s, s', c, s'.cpus[c], p);
    } else {
      QuietKeepsPlaces(cfg, s, s', c, s'.cpus[c], p);
    }
  }

  lemma FetchKeepsPlaces(cfg: Config, s: State, c: nat, ifNone: CpuPc, p: Pcb)
    requires LoaderInRange(cfg, s.ld) && c < |s.cpus| && s.cpus[c].proc.None?
    ensures Places(cfg, AtFetch(s, c, ifNone), p) == Places(cfg, s, p)
  {
    GotMoves(s.ready, p);
    OnCpusUpdate(s.cpus, c, AtFetch(s, c, ifNone).cpus[c], p);
  }

  lemma PutKeepsPlaces(cfg: Config, s: State, c: nat, p: Pcb)
    requires LoaderInRange(cfg, s.ld) && CpuEnabled(s, c) && s.cpus[c].pc.Putting?
    ensures Places(cfg, AtPut(s, c), p) == Places(cfg, s, p)
  {
    if s.cpus[c].proc.Some? {
      PutMoves(s, s.cpus[c].proc.value, p);
      OnCpusUpdate(s.cpus, c, AtPut(s, c).cpus[c], p);
    }
  }

  lemma CpuKeepsPlaces(cfg: Config, s: State, c: nat, p: Pcb)
    requires LoaderInRange(cfg, s.ld) && CpuEnabled(s, c)
    requires s.cpus[c].pc.FetchIdle? || s.cpus[c].pc.Fetch? ==> s.cpus[c].proc.None?
    ensures CpuDo(cfg, s, c).ld == s.ld
    ensures Places(cfg, CpuDo(cfg, s, c), p) == Places(cfg, s, p)
  {
    var pc := s.cpus[c].pc;
    if pc.Top? {
      TopKeepsPlaces(cfg, s, c, p);
    } else if pc.FetchIdle? {
      FetchKeepsPlaces(cfg, s, c, IdleSlot, p);
    } else if pc.Fetch? {
      FetchKeepsPlaces(cfg, s, c, Recheck, p);
    } else if pc.Putting? {
      PutKeepsPlaces(cfg, s, c, p);
    } else {
      QuietKeepsPlaces(cfg, s, CpuDo(cfg, s, c), c, CpuDo(cfg, s, c).cpus[c], p);
    }
  }

  lemma CpuKeepsLevels(cfg: Config, s: State, c: nat)
    requires WellPlaced(s.ready) && CpuEnabled(s, c)
    ensures WellPlaced(CpuDo(cfg, s, c).ready) && CpuDo(cfg, s, c).lives.Keys == s.lives.Keys
  {
    match s.cpus[c].pc
    case FetchIdle => GotWellPlaced(s.ready);
    case Fetch => GotWellPlaced(s.ready);
    case Putting => if s.cpus[c].proc.Some? { PutIsInsertion(s.ready, s.cpus[c].proc.value); }
    case _ =>
  }

  lemma CpuKeepsCount(cfg: Config, s: State, c: nat)
    requires Counted(cfg, s) && CpuEnabled(s, c)
    requires s.cpus[c].pc.FetchIdle? || s.cpus[c].pc.Fetch? ==> s.cpus[c].proc.None?
    ensures Counted(cfg, CpuDo(cfg, s, c))
  {
    var s' := CpuDo(cfg, s, c);
    CpuKeepsLevels(cfg, s, c);
    CpuKeepsPlaces(cfg, s, c, Pcb(0, 0, 0, 0, ""));
    forall p ensures p in s'.lives <==> IsLoaded(cfg, s'.ld, p) {
      assert p in s'.lives <==> p in s'.lives.Keys;
      assert p in s.lives <==> p in s.lives.Keys;
    }
    forall p ensures Places(cfg, s', p) == if p in s'.lives then 1 else 0 {
      CpuKeepsPlaces(cfg, s, c, p);
      assert p in s'.lives <==> p in s'.lives.Keys;
      assert p in s.lives <==> p in s.lives.Keys;
    }
  }

  lemma LoadKeepsCount(cfg: Config, s: State)
    requires Counted(cfg, s) && s.ld.pc.LTop?
    ensures Counted(cfg, LoaderDo(cfg, s))
  {
    var s' := LoaderDo(cfg, s);
    forall p ensures p in s'.lives <==> IsLoaded(cfg, s'.ld, p) {}
    forall p ensures Places(cfg, s', p) == if p in s'.lives then 1 else 0 {
      assert Places(cfg, s, p) == if p in s.lives then 1 else 0;
    }
  }

  lemma AddKeepsPlaces(cfg: Config, s: State, p: Pcb)
    requires Counted(cfg, s) && LoaderEnabled(cfg, s) && s.ld.pc.LAdd?
    ensures LoaderInRange(cfg, LoaderDo(cfg, s).ld)
    ensures Places(cfg, LoaderDo(cfg, s), p) == Places(cfg, s, p)
  {
    PutMoves(s, cfg.jobs[s.ld.i].pcb, p);
  }

  lemma AddKeepsCount(cfg: Config, s: State)
    requires Counted(cfg, s) && LoaderEnabled(cfg, s) && s.ld.pc.LAdd?
    ensures Counted(cfg, LoaderDo(cfg, s))
  {
    var s' := LoaderDo(cfg, s);
    PutIsInsertion(s.ready, cfg.jobs[s.ld.i].pcb);
    AddKeepsPlaces(cfg, s, cfg.jobs[s.ld.i].pcb);
    forall p ensures p in s'.lives <==> IsLoaded(cfg, s'.ld, p) {
      assert p in s.lives <==> IsLoaded(cfg, s.ld, p);
    }
    forall p ensures Places(cfg, s', p) == if p in s'.lives then 1 else 0 {
      AddKeepsPlaces(cfg, s, p);
      assert Places(cfg, s, p) == if p in s.lives then 1 else 0;
    }
  }

  lemma LoaderSlotsKeepsCount(cfg: Config, s: State)
    requires Counted(cfg, s) && LoaderEnabled(cfg, s) && !s.ld.pc.LTop? && !s.ld.pc.LAdd?
    ensures Counted(cfg, LoaderDo(cfg, s))
  {
    var s' := LoaderDo(cfg, s);
    assert NumLoaded(s'.ld) == NumLoaded(s.ld);
    forall p ensures p in s'.lives <==> IsLoaded(cfg, s'.ld, p) {
      assert p in s.lives <==> IsLoaded(cfg, s.ld, p);
    }
    forall p ensures Places(cfg, s', p) == if p in s'.lives then 1 else 0 {
      assert Places(cfg, s', p) == Places(cfg, s, p);
    }
  }

  lemma StepKeepsCount(cfg: Config, s: State, a: Action)
    requires Counted(cfg, s) && Enabled(cfg, s, a)
    requires a.CpuStep? && (s.cpus[a.c].pc.FetchIdle? || s.cpus[a.c].pc.Fetch?) ==> s.cpus[a.c].proc.None?
    ensures Counted(cfg, Do(cfg, s, a))
  {
    match a
    case CpuStep(c) => CpuKeepsCount(cfg, s, c);
    case LoaderStep =>
      if s.ld.pc.LTop? {
        LoadKeepsCount(cfg, s);
      } else if s.ld.pc.LAdd? {
        AddKeepsCount(cfg, s);
      } else {
        LoaderSlotsKeepsCount(cfg, s);
      }
    case Tick =>
      forall p ensures Places(cfg, Do(cfg, s, a), p) == if p in s.lives then 1 else 0 {
        assert Places(cfg, Do(cfg, s, a), p) == Places(cfg, s, p);
      }
  }
}

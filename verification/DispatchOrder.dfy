/** Which process a CPU dispatches: over every run, the ready processes stand in one
    line, by prio, then priority, then by when they became ready; a CPU takes the
    head of the line. */
module DispatchOrder {
  import opened Options
  import opened ReadyQueue
  import opened Mlq
  import opened Dispatch
  import opened Census
  import opened DispatchInvariant

  // The ready processes, the next one to be dispatched first.
  function Line(s: State): seq<Pcb> { Order(s.ready, |s.ready|) }

  // The step is a call of get_proc by CPU c.
  predicate Fetches(s: State, a: Action, c: nat) {
    a == CpuStep(c) && c < |s.cpus| && (s.cpus[c].pc.FetchIdle? || s.cpus[c].pc.Fetch?)
  }

  predicate IsFetch(s: State, a: Action) { a.CpuStep? && Fetches(s, a, a.c) }

  // The process that the step puts into the ready queues: put_proc by a CPU or
  // add_proc by the loader.
  function PutBy(cfg: Config, s: State, a: Action): Option<Pcb> {
    match a
    case CpuStep(c) => if c < |s.cpus| && s.cpus[c].pc.Putting? then s.cpus[c].proc else None
    case LoaderStep => if s.ld.pc.LAdd? && s.ld.i < |cfg.jobs| then Some(cfg.jobs[s.ld.i].pcb) else None
    case Tick => None
  }

  // q' is q with p behind everything that p does not outrank, and before the rest.
  ghost predicate JoinsBehind(q: seq<Pcb>, p: Pcb, q': seq<Pcb>) {
    exists k :: 0 <= k <= |q| && JoinsAt(q, p, q', k)
  }

  ghost predicate JoinsAt(q: seq<Pcb>, p: Pcb, q': seq<Pcb>, k: nat)
    requires k <= |q|
  {
    && q' == q[..k] + [p] + q[k..]
    && (forall i :: 0 <= i < k ==> !Outranks(p, q[i]))
    && (forall i :: k <= i < |q| ==> Outranks(p, q[i]))
  }

  /* ---------- One step ---------- */

  lemma {:induction false} InsertedJoins(q: seq<Pcb>, p: Pcb) returns (k: nat)
    requires Ranked(q)
    ensures k <= |q| && JoinsAt(q, p, Inserted(q, p), k)
  {
    if q == [] {
      k := 0;
    } else if Outranks(p, q[0]) {
      k := 0;
      forall i | 0 <= i < |q| ensures Outranks(p, q[i]) { assert i > 0 ==> !Outranks(q[i], q[0]); }
    } else {
      k := InsertedJoins(q[1..], p);
      k := k + 1;
      assert q == [q[0]] + q[1..];
      assert q[..k] == [q[0]] + q[1..][..k - 1];
      assert q[k..] == q[1..][k - 1..];
      forall i | k <= i < |q| ensures Outranks(p, q[i]) { assert q[i] == q[1..][i - 1]; }
      forall i | 0 < i < k ensures !Outranks(p, q[i]) { assert q[i] == q[1..][i - 1]; }
    }
  }

  // What a step does to the line: get_proc takes the head, or NULL exactly if there is
  // none; what is put joins behind all that it does not outrank, or is dropped exactly
  // if its level is full; no other step touches the line.
  ghost predicate LineStep(cfg: Config, s: State, a: Action, s': State) {
    if IsFetch(s, a) then
      && a.c < |s'.cpus| && s'.dropped == s.dropped
      && if Line(s) == [] then s'.cpus[a.c].proc.None? && Line(s') == []
         else s'.cpus[a.c].proc == Some(Line(s)[0]) && Line(s') == Line(s)[1..]
    else match PutBy(cfg, s, a)
      case None => Line(s') == Line(s) && s'.dropped == s.dropped
      case Some(p) =>
        && p.prio < |s.ready| && p !in Line(s)
        && if |s.ready[p.prio]| < MAX_QUEUE_SIZE
           then JoinsBehind(Line(s), p, Line(s')) && s'.dropped == s.dropped
           else Line(s') == Line(s) && s'.dropped == s.dropped + [p]
  }

  lemma PutBackJoins(s: State, p: Pcb)
    requires WellPlaced(s.ready) && p.prio < MAX_PRIO
    ensures var s' := PutBack(s, p);
      if |s.ready[p.prio]| < MAX_QUEUE_SIZE then JoinsBehind(Line(s), p, Line(s')) && s'.dropped == s.dropped
      else Line(s') == Line(s) && s'.dropped == s.dropped + [p]
  {
    PutIsInsertion(s.ready, p);
    OrderRanked(s.ready, |s.ready|);
    var k := InsertedJoins(Line(s), p);
  }

  lemma ReadyMember(ls: Levels, l: nat, p: Pcb)
    requires l < |ls| && p in ls[l]
    ensures InReady(ls, p) > 0
  {
    OccMember(ls[l], p);
    InLevel(ls, l, p);
  }

  // A process that is on a CPU or with the loader is not in the line.
  lemma ElsewhereNotInLine(cfg: Config, s: State, p: Pcb)
    requires Counted(cfg, s) && OnCpus(s.cpus, p) + AtLoader(cfg, s.ld, p) > 0
    ensures p !in Line(s)
  {
    OrderMembers(s.ready, |s.ready|, p);
    if p in Line(s) { ReadyMember(s.ready, p.prio, p); }
    assert Places(cfg, s, p) <= 1;
  }

  lemma FetchLine(cfg: Config, s: State, c: nat)
    requires Counted(cfg, s) && CpuEnabled(s, c) && Fetches(s, CpuStep(c), c)
    ensures LineStep(cfg, s, CpuStep(c), CpuDo(cfg, s, c))
  {
    GotIsHead(s.ready);
    FetchReady(cfg, s, c);
  }

  lemma FetchReady(cfg: Config, s: State, c: nat)
    requires CpuEnabled(s, c) && Fetches(s, CpuStep(c), c)
    ensures var s' := CpuDo(cfg, s, c);
      && c < |s'.cpus| && s'.ready == Got(s.ready).1 && s'.cpus[c].proc == Got(s.ready).0 && s'.dropped == s.dropped
      && |s'.ready| == |s.ready|
  {
  }

  lemma PutLine(cfg: Config, s: State, c: nat, p: Pcb)
    requires Counted(cfg, s) && CpuEnabled(s, c) && s.cpus[c].pc.Putting? && s.cpus[c].proc == Some(p)
    ensures LineStep(cfg, s, CpuStep(c), CpuDo(cfg, s, c))
  {
    OnCpu(s.cpus, c, p);
    ElsewhereNotInLine(cfg, s, p);
    PutBackJoins(s, p);
  }

  lemma AddLine(cfg: Config, s: State)
    requires Counted(cfg, s) && LoaderEnabled(cfg, s) && s.ld.pc.LAdd?
    ensures LineStep(cfg, s, LoaderStep, LoaderDo(cfg, s))
  {
    ElsewhereNotInLine(cfg, s, cfg.jobs[s.ld.i].pcb);
    PutBackJoins(s, cfg.jobs[s.ld.i].pcb);
  }

  lemma QuietCpuLine(cfg: Config, s: State, c: nat)
    requires CpuEnabled(s, c) && !Fetches(s, CpuStep(c), c) && PutBy(cfg, s, CpuStep(c)).None?
    ensures CpuDo(cfg, s, c).ready == s.ready && CpuDo(cfg, s, c).dropped == s.dropped
  {
  }

  lemma QuietLoaderLine(cfg: Config, s: State)
    requires LoaderEnabled(cfg, s) && !s.ld.pc.LAdd?
    ensures LoaderDo(cfg, s).ready == s.ready && LoaderDo(cfg, s).dropped == s.dropped
  {
  }

  lemma StepLine(cfg: Config, s: State, a: Action)
    requires Counted(cfg, s) && Enabled(cfg, s, a)
    ensures LineStep(cfg, s, a, Do(cfg, s, a))
  {
    if IsFetch(s, a) {
      FetchLine(cfg, s, a.c);
    } else if a.CpuStep? {
      if PutBy(cfg, s, a).Some? { PutLine(cfg, s, a.c, s.cpus[a.c].proc.value); } else { QuietCpuLine(cfg, s, a.c); }
    } else if a.LoaderStep? {
      if s.ld.pc.LAdd? { AddLine(cfg, s); } else { QuietLoaderLine(cfg, s); }
    }
  }

  lemma RunLine(cfg: Config, run: seq<State>, acts: seq<Action>, k: nat)
    requires ValidConfig(cfg) && IsRun(cfg, run, acts) && k < |acts|
    ensures LineStep(cfg, run[k], acts[k], run[k + 1])
  {
    StepOfRun(cfg, run, acts, k);
    RunInv(cfg, run, acts, k);
    StepLine(cfg, run[k], acts[k]);
  }

  /* ---------- The line is sorted ---------- */

  // The first state from which p has been in the line of run[k] without a break.
  function Since(run: seq<State>, k: nat, p: Pcb): (i: nat)
    requires k < |run|
    ensures i <= k
  {
    if k == 0 || p !in Line(run[k - 1]) then k else Since(run, k - 1, p)
  }

  predicate SameRank(p: Pcb, q: Pcb) { p.prio == q.prio && p.priority == q.priority }

  // x comes before y in the line of run[k].
  predicate Before(run: seq<State>, k: nat, x: Pcb, y: Pcb)
    requires k < |run|
  {
    Outranks(x, y) || (SameRank(x, y) && Since(run, k, x) < Since(run, k, y))
  }

  ghost predicate Sorted(run: seq<State>, k: nat)
    requires k < |run|
  {
    forall i, j :: 0 <= i < j < |Line(run[k])| ==> Before(run, k, Line(run[k])[i], Line(run[k])[j])
  }

  lemma StaysBefore(run: seq<State>, k: nat, x: Pcb, y: Pcb)
    requires k + 1 < |run| && Before(run, k, x, y) && x in Line(run[k]) && y in Line(run[k])
    ensures Before(run, k + 1, x, y)
  {
  }

  lemma SubsequenceSorted(run: seq<State>, k: nat, from: nat)
    requires k + 1 < |run| && Sorted(run, k) && from <= |Line(run[k])| && Line(run[k + 1]) == Line(run[k])[from..]
    ensures Sorted(run, k + 1)
  {
    var q, q' := Line(run[k]), Line(run[k + 1]);
    forall i, j | 0 <= i < j < |q'| ensures Before(run, k + 1, q'[i], q'[j]) {
      assert q'[i] == q[i + from] && q'[j] == q[j + from];
      StaysBefore(run, k, q[i + from], q[j + from]);
    }
  }

  // Where the entries of q' come from.
  lemma JoinedAt(q: seq<Pcb>, p: Pcb, q': seq<Pcb>, k: nat, i: nat)
    requires k <= |q| && JoinsAt(q, p, q', k) && i < |q'|
    ensures i < k ==> q'[i] == q[i] && !Outranks(p, q[i])
    ensures i == k ==> q'[i] == p
    ensures i > k ==> q'[i] == q[i - 1] && Outranks(p, q[i - 1])
  {
  }

  lemma JoinedSorted(run: seq<State>, k: nat, p: Pcb, at: nat)
    requires k + 1 < |run| && Sorted(run, k) && p !in Line(run[k])
    requires at <= |Line(run[k])| && JoinsAt(Line(run[k]), p, Line(run[k + 1]), at)
    ensures Sorted(run, k + 1)
  {
    var q, q' := Line(run[k]), Line(run[k + 1]);
    forall i, j | 0 <= i < j < |q'| ensures Before(run, k + 1, q'[i], q'[j]) {
      JoinedAt(q, p, q', at, i);
      JoinedAt(q, p, q', at, j);
      if i != at && j != at { StaysBefore(run, k, q'[i], q'[j]); }
    }
  }

  lemma StepSorted(cfg: Config, run: seq<State>, acts: seq<Action>, k: nat)
    requires ValidConfig(cfg) && IsRun(cfg, run, acts) && k < |acts| && Sorted(run, k)
    ensures Sorted(run, k + 1)
  {
    RunLine(cfg, run, acts, k);
    LineStepSorted(cfg, run, acts[k], k);
  }

  lemma LineStepSorted(cfg: Config, run: seq<State>, a: Action, k: nat)
    requires k + 1 < |run| && Sorted(run, k) && LineStep(cfg, run[k], a, run[k + 1])
    ensures Sorted(run, k + 1)
  {
    var q, q' := Line(run[k]), Line(run[k + 1]);
    if q' == q {
      SubsequenceSorted(run, k, 0);
    } else if IsFetch(run[k], a) {
      SubsequenceSorted(run, k, 1);
    } else {
      var p := PutBy(cfg, run[k], a).value;
      var at :| 0 <= at <= |q| && JoinsAt(q, p, q', at);
      JoinedSorted(run, k, p, at);
    }
  }

  lemma StartsEmpty(cfg: Config, run: seq<State>, acts: seq<Action>)
    requires IsRun(cfg, run, acts)
    ensures Line(run[0]) == []
  {
    OrderEmptyAbove(run[0].ready, 0, |run[0].ready|);
  }

  // In every state of every run the line is in order of prio, then priority, and at
  // equal rank whoever became ready first comes first.
  lemma {:induction false} LineIsSorted(cfg: Config, run: seq<State>, acts: seq<Action>, k: nat)
    requires ValidConfig(cfg) && IsRun(cfg, run, acts) && k < |run|
    ensures Sorted(run, k)
  {
    if k == 0 {
      StartsEmpty(cfg, run, acts);
    } else {
      LineIsSorted(cfg, run, acts, k - 1);
      StepSorted(cfg, run, acts, k - 1);
    }
  }

  // A process is in the line exactly if it is in its level.
  lemma LineIsReady(cfg: Config, run: seq<State>, acts: seq<Action>, k: nat, p: Pcb)
    requires ValidConfig(cfg) && IsRun(cfg, run, acts) && k < |run|
    ensures p in Line(run[k]) <==> p.prio < |run[k].ready| && p in run[k].ready[p.prio]
  {
    RunInv(cfg, run, acts, k);
    OrderMembers(run[k].ready, |run[k].ready|, p);
  }

  // What a CPU takes is outranked by no ready process, and each ready process of its
  // rank became ready after it.
  lemma DispatchesTheFirst(cfg: Config, run: seq<State>, acts: seq<Action>, k: nat, y: Pcb)
    requires ValidConfig(cfg) && IsRun(cfg, run, acts) && k < |acts| && IsFetch(run[k], acts[k])
    requires y in Line(run[k])
    ensures acts[k].c < |run[k + 1].cpus| && run[k + 1].cpus[acts[k].c].proc.Some?
    ensures var p := run[k + 1].cpus[acts[k].c].proc.value;
      && p in Line(run[k]) && p !in Line(run[k + 1])
      && (y != p ==>
            && y in Line(run[k + 1]) && !Outranks(y, p)
            && (SameRank(y, p) ==> Since(run, k, p) < Since(run, k, y)))
  {
    RunLine(cfg, run, acts, k);
    LineIsSorted(cfg, run, acts, k);
    var q := Line(run[k]);
    var j :| 0 <= j < |q| && q[j] == y;
    if j > 0 {
      assert Before(run, k, q[0], q[j]);
      assert y == q[1..][j - 1];
    }
    NotTwice(cfg, run, acts, k);
  }

  // The head of the line is not in it again.
  lemma NotTwice(cfg: Config, run: seq<State>, acts: seq<Action>, k: nat)
    requires ValidConfig(cfg) && IsRun(cfg, run, acts) && k < |run| && Line(run[k]) != []
    ensures Line(run[k])[0] !in Line(run[k])[1..]
  {
    LineIsSorted(cfg, run, acts, k);
    var q := Line(run[k]);
    forall j | 1 <= j < |q| ensures q[j] != q[0] { assert Before(run, k, q[0], q[j]); }
  }

  // What is put back or added without being dropped stands behind every ready process
  // that it does not outrank, and before every other one.
  lemma JoinsBehindEquals(cfg: Config, run: seq<State>, acts: seq<Action>, k: nat, p: Pcb, y: Pcb)
    requires ValidConfig(cfg) && IsRun(cfg, run, acts) && k < |acts|
    requires PutBy(cfg, run[k], acts[k]) == Some(p) && run[k + 1].dropped == run[k].dropped
    requires y in Line(run[k])
    ensures p !in Line(run[k]) && p in Line(run[k + 1]) && y in Line(run[k + 1])
    ensures Outranks(p, y) ==> Before(run, k + 1, p, y)
    ensures !Outranks(p, y) ==> Before(run, k + 1, y, p)
    ensures |Line(run[k + 1])| == |Line(run[k])| + 1
  {
    RunLine(cfg, run, acts, k);
    LineIsSorted(cfg, run, acts, k + 1);
    var q, q' := Line(run[k]), Line(run[k + 1]);
    var at :| 0 <= at <= |q| && JoinsAt(q, p, q', at);
    var i :| 0 <= i < |q| && q[i] == y;
    if i < at {
      assert q'[i] == y && q'[at] == p;
    } else {
      assert q'[i + 1] == y && q'[at] == p;
    }
  }

  /* ---------- Bounded bypass ---------- */

  // The step dispatches a process.
  predicate Dispatches(s: State, a: Action) { IsFetch(s, a) && Line(s) != [] }

  // How many of the steps from i to j do.
  function NumDispatches(run: seq<State>, acts: seq<Action>, i: nat, j: nat): nat
    requires i <= j <= |acts| < |run|
    decreases j - i
  {
    if i == j then 0 else (if Dispatches(run[i], acts[i]) then 1 else 0) + NumDispatches(run, acts, i + 1, j)
  }

  // No step from i to j puts in a process that outranks p.
  ghost predicate NobodyOvertakes(cfg: Config, run: seq<State>, acts: seq<Action>, i: nat, j: nat, p: Pcb)
    requires i <= j <= |acts| < |run|
  {
    forall m :: i <= m < j && PutBy(cfg, run[m], acts[m]).Some? ==> !Outranks(PutBy(cfg, run[m], acts[m]).value, p)
  }

  // n processes stand before p in the line.
  ghost predicate StandsAt(s: State, n: nat, p: Pcb) { n < |Line(s)| && Line(s)[n] == p }

  lemma StepMovesUp(cfg: Config, s: State, a: Action, s': State, n: nat, p: Pcb)
    requires LineStep(cfg, s, a, s') && Ranked(Line(s)) && StandsAt(s, n, p)
    requires Dispatches(s, a) ==> n > 0
    requires PutBy(cfg, s, a).Some? ==> !Outranks(PutBy(cfg, s, a).value, p)
    ensures StandsAt(s', if Dispatches(s, a) then n - 1 else n, p)
  {
    var q, q' := Line(s), Line(s');
    if !IsFetch(s, a) && q' != q {
      var x := PutBy(cfg, s, a).value;
      var at :| 0 <= at <= |q| && JoinsAt(q, x, q', at);
      assert n < at;
    }
  }

  lemma RunMovesUp(cfg: Config, run: seq<State>, acts: seq<Action>, k: nat, n: nat, p: Pcb)
    requires ValidConfig(cfg) && IsRun(cfg, run, acts) && k < |acts| && StandsAt(run[k], n, p)
    requires Dispatches(run[k], acts[k]) ==> n > 0
    requires PutBy(cfg, run[k], acts[k]).Some? ==> !Outranks(PutBy(cfg, run[k], acts[k]).value, p)
    ensures StandsAt(run[k + 1], if Dispatches(run[k], acts[k]) then n - 1 else n, p)
  {
    RunLine(cfg, run, acts, k);
    RunInv(cfg, run, acts, k);
    OrderRanked(run[k].ready, |run[k].ready|);
    StepMovesUp(cfg, run[k], acts[k], run[k + 1], n, p);
  }

  ghost predicate MovesUp(run: seq<State>, acts: seq<Action>, k: nat, m: nat, p: Pcb)
    requires k < |acts| < |run|
  {
    StandsAt(run[k], m, p) && (Dispatches(run[k], acts[k]) ==> m > 0) ==>
      StandsAt(run[k + 1], if Dispatches(run[k], acts[k]) then m - 1 else m, p)
  }

  lemma {:induction false} CountedMoves(run: seq<State>, acts: seq<Action>, i: nat, j: nat, n: nat, p: Pcb)
    requires i <= j <= |acts| < |run| && StandsAt(run[i], n, p) && NumDispatches(run, acts, i, j) <= n
    requires forall k: nat, m: nat :: i <= k < j ==> MovesUp(run, acts, k, m, p)
    ensures StandsAt(run[j], n - NumDispatches(run, acts, i, j), p)
    decreases j - i
  {
    assert i < j ==> MovesUp(run, acts, i, n, p);
    if i < j { CountedMoves(run, acts, i + 1, j, if Dispatches(run[i], acts[i]) then n - 1 else n, p); }
  }

  // As long as nobody that outranks it arrives, a process with n before it in the line
  // moves up by one with every dispatch by any CPU ...
  lemma MovesUpInRun(cfg: Config, run: seq<State>, acts: seq<Action>, i: nat, j: nat, n: nat, p: Pcb)
    requires ValidConfig(cfg) && IsRun(cfg, run, acts) && i <= j <= |acts|
    requires StandsAt(run[i], n, p) && NobodyOvertakes(cfg, run, acts, i, j, p)
    requires NumDispatches(run, acts, i, j) <= n
    ensures StandsAt(run[j], n - NumDispatches(run, acts, i, j), p)
  {
    forall k: nat, m: nat | i <= k < j ensures MovesUp(run, acts, k, m, p) {
      if StandsAt(run[k], m, p) && (Dispatches(run[k], acts[k]) ==> m > 0) { RunMovesUp(cfg, run, acts, k, m, p); }
    }
    CountedMoves(run, acts, i, j, n, p);
  }

  // ... and is dispatched by the dispatch number n + 1.
  lemma BoundedBypass(cfg: Config, run: seq<State>, acts: seq<Action>, i: nat, j: nat, n: nat, p: Pcb)
    requires ValidConfig(cfg) && IsRun(cfg, run, acts) && i <= j < |acts|
    requires StandsAt(run[i], n, p) && NobodyOvertakes(cfg, run, acts, i, j, p)
    requires NumDispatches(run, acts, i, j) == n && IsFetch(run[j], acts[j])
    ensures acts[j].c < |run[j + 1].cpus| && run[j + 1].cpus[acts[j].c].proc == Some(p)
  {
    MovesUpInRun(cfg, run, acts, i, j, n, p);
    RunLine(cfg, run, acts, j);
  }
}

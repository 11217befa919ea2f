/** What src/timer.c guarantees, over every interleaving of the timer thread with
    any number of devices. */
module BarrierProperties {
  import opened Barrier
  import opened Options
  import Slots

  lemma {:induction false} RunInv(run: seq<State>, acts: seq<Action>, k: nat)
    requires IsRun(run, acts) && k < |run|
    ensures Inv(run[k])
  {
    if k > 0 {
      RunInv(run, acts, k - 1);
      StepKeepsInv(run[k - 1], acts[k - 1]);
    }
  }

  /* ---------- Safety of the barrier ---------- */

  // When _time goes from t to t + 1, every unfinished device has entered
  // next_slot exactly t + 1 times and has announced the end of its slot.
  lemma BarrierSafety(run: seq<State>, acts: seq<Action>, k: nat)
    requires IsRun(run, acts) && k < |acts| && run[k + 1].time != run[k].time
    ensures run[k + 1].time == run[k].time + 1
    ensures forall d :: 0 <= d < |run[k].devs| && !run[k].devs[d].fsh ==>
      run[k].devs[d].calls == run[k].time + 1 && run[k].devs[d].done
  {
    RunInv(run, acts, k);
    assert acts[k].Timer? && run[k].timer.TTick?;
    assert forall d :: 0 <= d < |run[k].devs| ==> DevOk(run[k].timer, run[k].time, d, run[k].devs[d]);
  }

  // Unfinished devices stay in lockstep.
  lemma Lockstep(run: seq<State>, acts: seq<Action>, k: nat, d: nat, e: nat)
    requires IsRun(run, acts) && k < |run| && d < |run[k].devs| && e < |run[k].devs|
    requires !run[k].devs[d].fsh && !run[k].devs[e].fsh
    ensures run[k].devs[d].released == run[k].time || run[k].devs[d].released == run[k].time - 1
    ensures -1 <= run[k].devs[d].released - run[k].devs[e].released <= 1
  {
    RunInv(run, acts, k);
    assert DevOk(run[k].timer, run[k].time, d, run[k].devs[d]);
    assert DevOk(run[k].timer, run[k].time, e, run[k].devs[e]);
  }

  /* ---------- Observed time is exact ---------- */

  lemma TimeAtHome(s: State, d: nat)
    requires Inv(s) && d < |s.devs| && (s.devs[d].pc.Out? || s.devs[d].pc.AtLeave?)
    ensures s.time == s.devs[d].calls
  {
    assert DevOk(s.timer, s.time, d, s.devs[d]);
  }

  lemma {:induction false} TimeMonotone(run: seq<State>, acts: seq<Action>, i: nat, j: nat)
    requires IsRun(run, acts) && i <= j < |run|
    ensures run[i].time <= run[j].time
    decreases j - i
  {
    if i < j { TimeMonotone(run, acts, i, j - 1); }
  }

  // _time does not move while a device runs between two calls of next_slot, so
  // current_time, which takes no lock, always tells it the slot it is in.
  lemma TimeConstantBetweenCalls(run: seq<State>, acts: seq<Action>, i: nat, m: nat, j: nat, d: nat)
    requires IsRun(run, acts) && i <= m <= j < |run| && d < |run[i].devs| && d < |run[j].devs|
    requires run[i].devs[d].pc.Out? && run[j].devs[d].pc.Out?
    requires run[i].devs[d].calls == run[j].devs[d].calls
    ensures run[m].time == run[i].time == run[i].devs[d].calls
  {
    RunInv(run, acts, i);
    RunInv(run, acts, j);
    TimeAtHome(run[i], d);
    TimeAtHome(run[j], d);
    TimeMonotone(run, acts, i, m);
    TimeMonotone(run, acts, m, j);
  }

  // A call of next_slot that starts at step i and returns at step j returns
  // exactly one slot later.
  lemma OneSlotPerCall(run: seq<State>, acts: seq<Action>, i: nat, j: nat, d: nat)
    requires IsRun(run, acts) && i < j < |acts| && d < |run[j].devs|
    requires acts[i] == Call(d) && acts[j] == Device(d) && run[j].devs[d].pc.AtLeave?
    requires run[j].devs[d].calls == run[i + 1].devs[d].calls  // no other call in between
    ensures run[j + 1].devs[d].pc.Out? && run[j + 1].time == run[i].time + 1
  {
    RunInv(run, acts, i);
    RunInv(run, acts, j);
    TimeAtHome(run[i], d);
    TimeAtHome(run[j], d);
  }

  // No two threads are about to make conflicting accesses to one shared field,
  // although done is written under two different locks and _time under none.
  predicate Conflict(s: State, d: nat)
    requires d < |s.devs|
  {
    var pc := s.devs[d].pc;
    || (s.timer == TTest(d) && (pc.AtSet? || pc.AtFsh?))
    || (s.timer == TCount(d) && pc.AtFsh?)
    || (s.timer == TClear(d) && (pc.AtSet? || pc.AtTest?))
    || (s.timer == TTick && pc.Out?)
  }

  lemma RaceFree(run: seq<State>, acts: seq<Action>, k: nat, d: nat)
    requires IsRun(run, acts) && k < |run| && d < |run[k].devs|
    ensures !Conflict(run[k], d)
  {
    RunInv(run, acts, k);
    assert DevOk(run[k].timer, run[k].time, d, run[k].devs[d]);
  }

  /* ---------- No lost wake-up, no deadlock ---------- */

  lemma NoLostWakeup(run: seq<State>, acts: seq<Action>, k: nat, d: nat)
    requires IsRun(run, acts) && k < |run| && d < |run[k].devs|
    ensures run[k].devs[d].pc.Asleep? ==> run[k].devs[d].done || run[k].timer == TSignal(d)
    ensures run[k].timer == TAsleep(d) ==>
      || (!run[k].devs[d].done && !run[k].devs[d].fsh)
      || run[k].devs[d].pc.AtSignalE? || run[k].devs[d].pc.AtSignalD?
  {
    RunInv(run, acts, k);
    assert DevOk(run[k].timer, run[k].time, d, run[k].devs[d]);
  }

  ghost predicate SomeDeviceEnabled(s: State) {
    exists d :: 0 <= d < |s.devs| && DeviceEnabled(s.devs[d])
  }

  // Until the timer has exited, some thread can take a step of its own without
  // any spurious wake-up; and if it is only a device outside this file, then the
  // timer sleeps on one of those.
  lemma NoDeadlock(s: State)
    requires Inv(s) && !s.timer.Idle? && !s.timer.TExit?
    ensures TimerEnabled(s) || SomeDeviceEnabled(s) || (s.timer.TAsleep? && s.devs[s.timer.i].pc.Out?)
  {
    if !TimerEnabled(s) && !(s.timer.TAsleep? && s.devs[s.timer.i].pc.Out?) {
      var i := s.timer.i;
      assert DevOk(s.timer, s.time, i, s.devs[i]);
      assert DeviceEnabled(s.devs[i]);
    }
  }

  predicate Progress(a: Action) { !a.TimerSpurious? && !a.DeviceSpurious? }

  // So while any device is unfinished, some step that is not a spurious wake-up is
  // enabled in every state of every run.
  lemma SomeStepEnabled(run: seq<State>, acts: seq<Action>, k: nat)
    requires IsRun(run, acts) && k < |run| && !AllFinished(run[k])
    ensures exists a :: Progress(a) && Enabled(run[k], a)
  {
    RunInv(run, acts, k);
    var s := run[k];
    if s.timer.Idle? {
      assert Enabled(s, Start) && Progress(Start);
    } else {
      NoDeadlock(s);
      if TimerEnabled(s) {
        assert Enabled(s, Timer) && Progress(Timer);
      } else if d :| 0 <= d < |s.devs| && DeviceEnabled(s.devs[d]) {
        assert Enabled(s, Device(d)) && Progress(Device(d));
      } else {
        assert Enabled(s, Call(s.timer.i)) && Progress(Call(s.timer.i));
      }
    }
  }

  /* ---------- A bound on the steps to the next tick ---------- */

  predicate Committed(v: Dev) {
    v.done || v.fsh || v.pc.WantE? || v.pc.AtSet? || v.pc.WantD? || v.pc.AtFsh?
  }

  // Every device has called next_slot for the current slot, or is detaching.
  predicate Ready(s: State) {
    && (Collecting(s.timer) || s.timer.Top?)
    && forall d :: 0 <= d < |s.devs| ==> Committed(s.devs[d])
  }

  function DevRank(v: Dev): nat {
    match v.pc
    case Out => 9
    case WantE => 8
    case AtSet => 7
    case AtSignalE => 6
    case AtUnlockE => 5
    case WantT => 4
    case AtTest => 3
    case AtLeave => 2
    case WantD => 8
    case AtFsh => 7
    case AtSignalD => 6
    case AtUnlockD => 5
    case _ => 0
  }

  function SumRanks(devs: seq<Dev>): nat {
    if devs == [] then 0 else DevRank(devs[|devs| - 1]) + SumRanks(devs[..|devs| - 1])
  }

  lemma {:induction false} SumRanksUpdate(devs: seq<Dev>, d: nat, v: Dev)
    requires d < |devs|
    ensures SumRanks(devs[d := v]) == SumRanks(devs) - DevRank(devs[d]) + DevRank(v)
  {
    var n := |devs| - 1;
    if d == n {
      assert devs[d := v][..n] == devs[..n];
    } else {
      assert devs[d := v][..n] == devs[..n][d := v];
      SumRanksUpdate(devs[..n], d, v);
    }
  }

  // Releasing a device pays for its way from timer_cond back to sleep.
  function TimerRank(t: TimerPc, n: nat): nat {
    match t
    case TWantT(i) => 6 * n + 36 * i + 44
    case TClear(i) => 6 * n + 36 * i + 43
    case TSignal(i) => 6 * n + 36 * i + 42
    case TUnlockT(i) => 6 * n + 36 * i + 9
    case TJudge => 6 * n + 8
    case Top => 6 * n + 7
    case TWantE(i) => 6 * i + 6
    case TTest(i) => 6 * i + 5
    case TCount(i) => 6 * i + 4
    case TUnlockE(i) => 6 * i + 3
    case TAsleep(i) => 6 * i + 2
    case TExit => 0
    case _ => 1
  }

  // Eight timer steps' worth for every step a device still has to take, so that
  // waking the timer up is paid for by the device that signals it.
  function Measure(s: State): nat {
    8 * SumRanks(s.devs) + TimerRank(s.timer, |s.devs|) + if s.stop then 0 else 1
  }

  ghost predicate Reached(s: State, s': State) {
    s'.time == s.time + 1 || (s'.timer.TExit? && AllFinished(s'))
  }

  lemma RankSame(devs: seq<Dev>, devs': seq<Dev>, d: nat)
    requires d < |devs| && |devs'| == |devs| && devs' == devs[d := devs'[d]]
    ensures SumRanks(devs') == SumRanks(devs) - DevRank(devs[d]) + DevRank(devs'[d])
  {
  }

  lemma TimerStepReady(s: State)
    requires Inv(s) && Ready(s) && TimerEnabled(s)
    ensures var s' := TimerDo(s); Reached(s, s') || (Ready(s') && s'.time == s.time)
  {
  }

  // One step of the timer thread changes at most the device it deals with, and its
  // rank only when it wakes it up.
  lemma TimerMoves(s: State, d: nat)
    requires InRange(s) && TimerEnabled(s) && At(s.timer, d)
    ensures d < |s.devs| == |TimerDo(s).devs| && TimerDo(s).devs == s.devs[d := TimerDo(s).devs[d]]
    ensures TimerDo(s).devs[d].pc == if s.timer.TSignal? && s.devs[d].pc.Asleep? then WantT else s.devs[d].pc
  {
  }

  predicate Visits(t: TimerPc) {
    || t.TWantE? || t.TTest? || t.TAsleep? || t.TCount? || t.TUnlockE?
    || t.TWantT? || t.TClear? || t.TSignal? || t.TUnlockT?
  }

  lemma TimerRanks(s: State)
    requires InRange(s) && TimerEnabled(s)
    ensures |TimerDo(s).devs| == |s.devs|
    ensures SumRanks(TimerDo(s).devs) == SumRanks(s.devs) ||
      (s.timer.TSignal? && SumRanks(TimerDo(s).devs) == SumRanks(s.devs) + 4)
  {
    if Visits(s.timer) {
      TimerMoves(s, s.timer.i);
      RankSame(s.devs, TimerDo(s).devs, s.timer.i);
    }
  }

  lemma TimerRankDrops(s: State)
    requires InRange(s) && TimerEnabled(s) && !s.timer.TTick?
    ensures TimerRank(TimerDo(s).timer, |s.devs|) + (if s.timer.TSignal? then 33 else 1) <= TimerRank(s.timer, |s.devs|)
    ensures TimerDo(s).stop == s.stop
  {
  }

  // Every step of the timer thread but the tick takes one of the steps left.
  lemma TimerStepDecreases(s: State)
    requires InRange(s) && TimerEnabled(s) && !s.timer.TTick?
    ensures Measure(TimerDo(s)) < Measure(s)
  {
    TimerRanks(s);
    TimerRankDrops(s);
  }

  lemma DeviceStepReady(s: State, d: nat)
    requires Inv(s) && Ready(s) && d < |s.devs| && DeviceEnabled(s.devs[d])
    ensures Ready(DeviceDo(s, d)) && DeviceDo(s, d).time == s.time
  {
  }

  lemma DeviceRankDrops(s: State, d: nat)
    requires d < |s.devs| && DeviceEnabled(s.devs[d]) && !s.devs[d].pc.AtLeave?
    ensures var s' := DeviceDo(s, d);
      && |s'.devs| == |s.devs| && s'.devs == s.devs[d := s'.devs[d]]
      && DevRank(s'.devs[d]) < DevRank(s.devs[d])
      && s'.timer == (if s.devs[d].pc.AtSignalE? || s.devs[d].pc.AtSignalD? then Signalled(s.timer, d) else s.timer)
      && s'.stop == s.stop
  {
  }

  lemma DeviceStepDecreases(s: State, d: nat)
    requires d < |s.devs| && DeviceEnabled(s.devs[d]) && !s.devs[d].pc.AtLeave?
    ensures Measure(DeviceDo(s, d)) < Measure(s)
  {
    var s' := DeviceDo(s, d);
    DeviceRankDrops(s, d);
    RankSame(s.devs, s'.devs, d);
    assert TimerRank(s'.timer, |s.devs|) <= TimerRank(s.timer, |s.devs|) + 4;
  }

  // A device that is back from next_slot may call again.
  lemma ReturnCosts(s: State, d: nat)
    requires d < |s.devs| && s.devs[d].pc.AtLeave?
    ensures Measure(DeviceDo(s, d)) == Measure(s) + 56
  {
    RankSame(s.devs, DeviceDo(s, d).devs, d);
  }

  lemma {:induction false} SumRanksBound(devs: seq<Dev>)
    ensures SumRanks(devs) <= 9 * |devs|
  {
    if devs != [] { SumRanksBound(devs[..|devs| - 1]); }
  }

  lemma MeasureBound(s: State)
    requires InRange(s)
    ensures Measure(s) <= 114 * |s.devs| + 9
  {
    SumRanksBound(s.devs);
  }

  lemma OutsideStepDecreases(s: State, a: Action)
    requires Enabled(s, a) && (a.Call? || a.Leave? || a.Stop?)
    ensures Measure(Do(s, a)) < Measure(s)
  {
    if !a.Stop? { RankSame(s.devs, Do(s, a).devs, a.d); }
  }

  lemma ReadyStepDecreases(s: State, a: Action)
    requires Inv(s) && Ready(s) && Enabled(s, a) && Progress(a)
    ensures Reached(s, Do(s, a)) || (Ready(Do(s, a)) && Do(s, a).time == s.time && Measure(Do(s, a)) < Measure(s))
  {
    assert forall d :: 0 <= d < |s.devs| ==> DevOk(s.timer, s.time, d, s.devs[d]);
    match a
    case Timer =>
      TimerStepReady(s);
      if !s.timer.TTick? { TimerStepDecreases(s); }
    case Device(d) => DeviceStepReady(s, d); DeviceStepDecreases(s, d);
    case _ =>
  }

  // A spurious wake-up costs the woken thread its way back to sleep.
  lemma SpuriousStepCosts(s: State, a: Action)
    requires Enabled(s, a) && !Progress(a)
    ensures Do(s, a).time == s.time && Measure(Do(s, a)) <= Measure(s) + 32
  {
    if a.DeviceSpurious? { RankSame(s.devs, Do(s, a).devs, a.d); }
  }

  lemma SpuriousStepReady(s: State, a: Action)
    requires Inv(s) && Ready(s) && Enabled(s, a) && !Progress(a)
    ensures Ready(Do(s, a))
  {
    if a.DeviceSpurious? { assert DevOk(s.timer, s.time, a.d, s.devs[a.d]); }
  }

  // How many of the actions from i to j are spurious wake-ups.
  function Spurious(acts: seq<Action>, i: nat, j: nat): nat
    requires i <= j <= |acts|
    decreases j - i
  {
    if i == j then 0 else (if Progress(acts[i]) then 0 else 1) + Spurious(acts, i + 1, j)
  }

  // Once every device has called next_slot or is detaching, every interleaving
  // reaches the next tick (or, when all have detached, the timer's exit) within
  // Measure steps, and 33 more for every spurious wake-up on the way ...
  lemma {:induction false} TickWithinMeasure(run: seq<State>, acts: seq<Action>, i: nat)
    requires IsRun(run, acts) && i < |run| && Ready(run[i])
    requires |acts| - i >= Measure(run[i]) + 33 * Spurious(acts, i, |acts|)
    ensures exists j ::
      i < j <= |acts| && j - i <= Measure(run[i]) + 33 * Spurious(acts, i, j) && Reached(run[i], run[j])
    decreases |acts| - i
  {
    RunInv(run, acts, i);
    assert Measure(run[i]) > 0;
    if Progress(acts[i]) {
      ReadyStepDecreases(run[i], acts[i]);
    } else {
      SpuriousStepCosts(run[i], acts[i]);
      SpuriousStepReady(run[i], acts[i]);
    }
    if Reached(run[i], run[i + 1]) {
      assert Spurious(acts, i, i + 1) >= 0;
    } else {
      TickWithinMeasure(run, acts, i + 1);
      var j :| i + 1 < j <= |acts| && j - (i + 1) <= Measure(run[i + 1]) + 33 * Spurious(acts, i + 1, j)
        && Reached(run[i + 1], run[j]);
      assert Reached(run[i], run[j]);
    }
  }

  // ... and can always go on until then.
  lemma ReadyCanGoOn(s: State)
    requires Inv(s) && Ready(s)
    ensures TimerEnabled(s) || SomeDeviceEnabled(s)
  {
    NoDeadlock(s);
    assert forall d :: 0 <= d < |s.devs| ==> DevOk(s.timer, s.time, d, s.devs[d]);
  }

  /* ---------- Shutdown ---------- */

  lemma FinishedStaysFinished(s: State, a: Action)
    requires Inv(s) && Enabled(s, a) && AllFinished(s) && !s.timer.Idle?
    ensures AllFinished(Do(s, a)) && !Do(s, a).timer.Idle?
  {
  }

  // How many ticks may still come once every device has detached.
  function TicksLeft(s: State): nat {
    if s.timer.TExit? || (Releasing(s.timer) && s.fsh == s.event) then 0 else 1
  }

  lemma TicksLeftStep(s: State, a: Action)
    requires Inv(s) && Enabled(s, a) && AllFinished(s) && !s.timer.Idle?
    ensures Do(s, a).time + TicksLeft(Do(s, a)) <= s.time + TicksLeft(s)
  {
  }

  lemma {:induction false} TicksLeftRun(run: seq<State>, acts: seq<Action>, i: nat, j: nat)
    requires IsRun(run, acts) && i <= j < |run| && AllFinished(run[i]) && !run[i].timer.Idle?
    ensures AllFinished(run[j]) && !run[j].timer.Idle?
    ensures run[j].time + TicksLeft(run[j]) <= run[i].time + TicksLeft(run[i])
    decreases j - i
  {
    if i < j {
      TicksLeftRun(run, acts, i, j - 1);
      RunInv(run, acts, j - 1);
      FinishedStaysFinished(run[j - 1], acts[j - 1]);
      TicksLeftStep(run[j - 1], acts[j - 1]);
    }
  }

  // At most one tick follows the last detach, in any interleaving.
  lemma AtMostOneTickAfterLastDetach(run: seq<State>, acts: seq<Action>, i: nat, j: nat)
    requires IsRun(run, acts) && i <= j < |run| && AllFinished(run[i]) && !run[i].timer.Idle?
    ensures run[j].time <= run[i].time + 1
  {
    TicksLeftRun(run, acts, i, j);
  }

  // Once main has set timer_stop, which it does after all devices have gone, the timer
  // that is at its loop test does not tick again.
  predicate Stopped(s: State) { s.stop && (s.timer.Top? || s.timer.TExit?) }

  lemma StoppedStep(s: State, a: Action)
    requires Inv(s) && Enabled(s, a) && Stopped(s)
    ensures Stopped(Do(s, a)) && Do(s, a).time == s.time
  {
  }

  lemma {:induction false} NoTickAfterStop(run: seq<State>, acts: seq<Action>, i: nat, j: nat)
    requires IsRun(run, acts) && i <= j < |run| && run[i].stop && (run[i].timer.Top? || run[i].timer.TExit?)
    ensures run[j].time == run[i].time && run[j].stop && (run[j].timer.Top? || run[j].timer.TExit?)
    decreases j - i
  {
    if i < j {
      RunInv(run, acts, i);
      StoppedStep(run[i], acts[i]);
      NoTickAfterStop(run, acts, i + 1, j);
    }
  }

  // The timer thread ends only after every attached device has detached.
  lemma ExitOnlyWhenAllDetached(run: seq<State>, acts: seq<Action>, k: nat, d: nat)
    requires IsRun(run, acts) && k < |run| && run[k].timer.TExit? && d < |run[k].devs|
    ensures run[k].devs[d].fsh && !run[k].devs[d].pc.Out?
  {
    RunInv(run, acts, k);
    assert DevOk(run[k].timer, run[k].time, d, run[k].devs[d]);
  }

  /* ---------- The barrier refines the slot machine ---------- */

  function AbsClient(v: Dev): Slots.Client {
    Slots.Client(
      match v.pc
      case Out => Slots.Working
      case WantD => Slots.Working
      case AtFsh => Slots.Working
      case AtSignalD => Slots.Left
      case AtUnlockD => Slots.Left
      case Gone => Slots.Left
      case _ => Slots.Waiting,
      v.calls)
  }

  function Abs(s: State): Slots.State {
    Slots.State(s.time, seq(|s.devs|, i requires 0 <= i < |s.devs| => AbsClient(s.devs[i])))
  }

  // What a step looks like to a client of the timer.
  function AbsAction(s: State, a: Action): Option<Slots.Action>
    requires Enabled(s, a)
  {
    match a
    case Attach => Some(Slots.Attach)
    case Call(d) => Some(Slots.Enter(d))
    case Device(d) =>
      if s.devs[d].pc.AtLeave? then Some(Slots.Return(d))
      else if s.devs[d].pc.AtFsh? then Some(Slots.Detach(d))
      else None
    case Timer => if s.timer.TTick? then Some(Slots.Tick) else None
    case _ => None
  }

  lemma TickIsTick(s: State)
    requires Inv(s) && s.timer.TTick?
    ensures Slots.Enabled(Abs(s), Slots.Tick) && Abs(TimerDo(s)) == Slots.Do(Abs(s), Slots.Tick)
  {
    assert forall d :: 0 <= d < |s.devs| ==> DevOk(s.timer, s.time, d, s.devs[d]);
  }

  lemma TimerStutters(s: State)
    requires Inv(s) && TimerEnabled(s) && !s.timer.TTick?
    ensures Abs(TimerDo(s)) == Abs(s)
  {
  }

  lemma DeviceRefines(s: State, d: nat)
    requires Inv(s) && d < |s.devs| && DeviceEnabled(s.devs[d])
    ensures match AbsAction(s, Device(d))
      case None => Abs(DeviceDo(s, d)) == Abs(s)
      case Some(b) => Slots.Enabled(Abs(s), b) && Abs(DeviceDo(s, d)) == Slots.Do(Abs(s), b)
  {
    assert DevOk(s.timer, s.time, d, s.devs[d]);
    AbsFrame(s, d);
  }

  lemma AbsFrame(s: State, d: nat)
    requires InRange(s) && d < |s.devs| && DeviceEnabled(s.devs[d])
    ensures var s' := DeviceDo(s, d);
      && d < |s'.devs| && Abs(s').time == Abs(s).time
      && Abs(s').clients == Abs(s).clients[d := AbsClient(s'.devs[d])]
      && Abs(s).clients == Abs(s).clients[d := AbsClient(s.devs[d])]
  {
    var s' := DeviceDo(s, d);
    assert s'.devs == s.devs[d := s'.devs[d]];
  }

  // Every step of the threads is a step of the slot machine or invisible to it.
  lemma StepRefinesSlots(s: State, a: Action)
    requires Inv(s) && Enabled(s, a)
    ensures match AbsAction(s, a)
      case None => Abs(Do(s, a)) == Abs(s)
      case Some(b) => Slots.Enabled(Abs(s), b) && Abs(Do(s, a)) == Slots.Do(Abs(s), b)
  {
    match a
    case Timer => if s.timer.TTick? { TickIsTick(s); } else { TimerStutters(s); }
    case Device(d) => DeviceRefines(s, d);
    case Attach => assert Abs(Do(s, a)).clients == Abs(s).clients + [Slots.Client(Slots.Working, 0)];
    case Call(d) =>
      assert Abs(Do(s, a)).clients == Abs(s).clients[d := Slots.Client(Slots.Waiting, s.devs[d].calls + 1)];
    case Leave(d) => assert Abs(Do(s, a)).clients == Abs(s).clients;
    case DeviceSpurious(d) => assert Abs(Do(s, a)).clients == Abs(s).clients;
    case _ =>
  }

  // So what the devices see of any run of the threads is a run of the slot machine.
  lemma {:induction false} RunRefinesSlots(run: seq<State>, acts: seq<Action>, k: nat)
    returns (trace: seq<Slots.Action>)
    requires IsRun(run, acts) && k < |run|
    ensures Slots.Reaches(Slots.INITIAL, trace, Abs(run[k]))
  {
    if k == 0 {
      trace := [];
    } else {
      trace := RunRefinesSlots(run, acts, k - 1);
      RunInv(run, acts, k - 1);
      StepRefinesSlots(run[k - 1], acts[k - 1]);
      var step := AbsAction(run[k - 1], acts[k - 1]);
      if step.Some? {
        Slots.ReachesStep(Slots.INITIAL, trace, Abs(run[k - 1]), step.value);
        trace := trace + [step.value];
      }
    }
  }
}

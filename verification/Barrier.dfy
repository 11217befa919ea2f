/** The time-slot barrier of src/timer.c as a transition system.

    One timer thread and any number of devices.  An atomic step is one lock
    acquisition, one access to the shared fields, one signal or one unlock; both
    mutexes of a device are explicit, and a condition variable's wait set is the
    program counter TAsleep(d) of the timer or Asleep of the device (no other
    thread ever waits on them).  Spurious wake-ups, which POSIX allows, are steps. */
module Barrier {
  datatype Owner = Free | ByTimer | ByDevice

  datatype DevPc =
    | Out         // running its own code, outside this file
    | WantE       // next_slot: about to lock event_lock
    | AtSet       // holds event_lock, about to set done
    | AtSignalE   // holds event_lock, about to signal event_cond
    | AtUnlockE   // holds event_lock, about to release it
    | WantT       // about to lock (or re-lock) timer_lock
    | AtTest      // holds timer_lock, about to test done
    | Asleep      // in the wait set of timer_cond
    | AtLeave     // holds timer_lock, has seen done == 0
    | WantD       // detach_event: about to lock event_lock
    | AtFsh       // holds event_lock, about to set fsh
    | AtSignalD   // holds event_lock, about to signal event_cond
    | AtUnlockD   // holds event_lock, about to release it
    | Gone        // the thread has detached

  // calls and released are history: next_slot calls begun, and slots the timer
  // has released the device into.
  datatype Dev = Dev(pc: DevPc, done: bool, fsh: bool, event: Owner, timer: Owner,
                     calls: nat, released: nat)

  datatype TimerPc =
    | Idle             // not started
    | Top              // the loop test and the reset of both counters
    | TWantE(i: nat)   // collecting device i: about to lock event_lock
    | TTest(i: nat)    // holds event_lock, about to test done and fsh
    | TAsleep(i: nat)  // in the wait set of event_cond
    | TCount(i: nat)   // holds event_lock, about to count the device
    | TUnlockE(i: nat)
    | TTick            // about to increase _time
    | TWantT(i: nat)   // releasing device i: about to lock timer_lock
    | TClear(i: nat)   // holds timer_lock, about to clear done
    | TSignal(i: nat)  // holds timer_lock, about to signal timer_cond
    | TUnlockT(i: nat)
    | TJudge           // about to test fsh == event
    | TExit

  // attach_event puts a new device at the head of dev_list, so the timer meets
  // the devices from the last index down to 0.
  datatype State = State(devs: seq<Dev>, timer: TimerPc, time: nat, fsh: nat, event: nat, stop: bool)

  datatype Action =
    | Attach | Start | Stop
    | Timer            // the next step of the timer thread
    | TimerSpurious    // a spurious wake-up of the timer thread
    | Call(d: nat)     // device d calls next_slot
    | Leave(d: nat)    // device d calls detach_event
    | Device(d: nat)   // the next step of device d inside next_slot or detach_event
    | DeviceSpurious(d: nat)

  const INITIAL := State([], Idle, 0, 0, 0, false)

  function CollectFrom(n: nat): TimerPc { if n == 0 then TTick else TWantE(n - 1) }

  function ReleaseFrom(n: nat): TimerPc { if n == 0 then TJudge else TWantT(n - 1) }

  predicate AllFinished(s: State) { forall d :: 0 <= d < |s.devs| ==> s.devs[d].fsh }

  predicate AllGone(s: State) { forall d :: 0 <= d < |s.devs| ==> s.devs[d].pc.Gone? }

  predicate InRange(s: State) {
    match s.timer
    case TWantE(i) => i < |s.devs|
    case TTest(i) => i < |s.devs|
    case TAsleep(i) => i < |s.devs|
    case TCount(i) => i < |s.devs|
    case TUnlockE(i) => i < |s.devs|
    case TWantT(i) => i < |s.devs|
    case TClear(i) => i < |s.devs|
    case TSignal(i) => i < |s.devs|
    case TUnlockT(i) => i < |s.devs|
    case _ => true
  }

  predicate TimerEnabled(s: State)
    requires InRange(s)
  {
    match s.timer
    case Idle => false
    case TExit => false
    case TAsleep(_) => false
    case TWantE(i) => s.devs[i].event.Free?
    case TWantT(i) => s.devs[i].timer.Free?
    case _ => true
  }

  predicate DeviceEnabled(v: Dev) {
    match v.pc
    case Out => false
    case Asleep => false
    case Gone => false
    case WantE => v.event.Free?
    case WantD => v.event.Free?
    case WantT => v.timer.Free?
    case _ => true
  }

  predicate Enabled(s: State, a: Action) {
    InRange(s) &&
    match a
    case Attach => s.timer.Idle?
    case Start => s.timer.Idle?
    case Stop => !s.timer.Idle? && !s.stop && AllGone(s)
    case Timer => TimerEnabled(s)
    case TimerSpurious => s.timer.TAsleep?
    case Call(d) => d < |s.devs| && s.devs[d].pc.Out?
    case Leave(d) => d < |s.devs| && s.devs[d].pc.Out?
    case Device(d) => d < |s.devs| && DeviceEnabled(s.devs[d])
    case DeviceSpurious(d) => d < |s.devs| && s.devs[d].pc.Asleep?
  }

  function TimerDo(s: State): State
    requires InRange(s) && TimerEnabled(s)
  {
    match s.timer
    case Top =>
      if s.stop then s.(timer := TExit)
      else s.(timer := CollectFrom(|s.devs|), fsh := 0, event := 0)
    case TWantE(i) => s.(timer := TTest(i), devs := s.devs[i := s.devs[i].(event := ByTimer)])
    case TTest(i) =>
      if !s.devs[i].done && !s.devs[i].fsh
      then s.(timer := TAsleep(i), devs := s.devs[i := s.devs[i].(event := Free)])
      else s.(timer := TCount(i))
    case TCount(i) =>
      s.(timer := TUnlockE(i), event := s.event + 1, fsh := if s.devs[i].fsh then s.fsh + 1 else s.fsh)
    case TUnlockE(i) => s.(timer := CollectFrom(i), devs := s.devs[i := s.devs[i].(event := Free)])
    case TTick => s.(timer := ReleaseFrom(|s.devs|), time := s.time + 1)
    case TWantT(i) => s.(timer := TClear(i), devs := s.devs[i := s.devs[i].(timer := ByTimer)])
    case TClear(i) =>
      s.(timer := TSignal(i), devs := s.devs[i := s.devs[i].(done := false, released := s.devs[i].released + 1)])
    case TSignal(i) =>
      s.(timer := TUnlockT(i),
         devs := if s.devs[i].pc.Asleep? then s.devs[i := s.devs[i].(pc := WantT)] else s.devs)
    case TUnlockT(i) => s.(timer := ReleaseFrom(i), devs := s.devs[i := s.devs[i].(timer := Free)])
    case TJudge => s.(timer := if s.fsh == s.event then TExit else Top)
  }

  // Device d signals its event_cond, waking the timer if it sleeps there.
  function Signalled(t: TimerPc, d: nat): TimerPc { if t == TAsleep(d) then TWantE(d) else t }

  function DeviceDo(s: State, d: nat): State
    requires d < |s.devs| && DeviceEnabled(s.devs[d])
  {
    var v := s.devs[d];
    match v.pc
    case WantE => s.(devs := s.devs[d := v.(pc := AtSet, event := ByDevice)])
    case AtSet => s.(devs := s.devs[d := v.(pc := AtSignalE, done := true)])
    case AtSignalE => s.(devs := s.devs[d := v.(pc := AtUnlockE)], timer := Signalled(s.timer, d))
    case AtUnlockE => s.(devs := s.devs[d := v.(pc := WantT, event := Free)])
    case WantT => s.(devs := s.devs[d := v.(pc := AtTest, timer := ByDevice)])
    case AtTest =>
      s.(devs := s.devs[d := if v.done then v.(pc := Asleep, timer := Free) else v.(pc := AtLeave)])
    case AtLeave => s.(devs := s.devs[d := v.(pc := Out, timer := Free)])
    case WantD => s.(devs := s.devs[d := v.(pc := AtFsh, event := ByDevice)])
    case AtFsh => s.(devs := s.devs[d := v.(pc := AtSignalD, fsh := true)])
    case AtSignalD => s.(devs := s.devs[d := v.(pc := AtUnlockD)], timer := Signalled(s.timer, d))
    case AtUnlockD => s.(devs := s.devs[d := v.(pc := Gone, event := Free)])
  }

  function Do(s: State, a: Action): State
    requires Enabled(s, a)
  {
    match a
    case Attach => s.(devs := s.devs + [Dev(Out, false, false, Free, Free, 0, 0)])
    case Start => s.(timer := Top)
    case Stop => s.(stop := true)
    case Timer => TimerDo(s)
    case TimerSpurious => s.(timer := TWantE(s.timer.i))
    case Call(d) => s.(devs := s.devs[d := s.devs[d].(pc := WantE, calls := s.devs[d].calls + 1)])
    case Leave(d) => s.(devs := s.devs[d := s.devs[d].(pc := WantD)])
    case Device(d) => DeviceDo(s, d)
    case DeviceSpurious(d) => s.(devs := s.devs[d := s.devs[d].(pc := WantT)])
  }

  // A run is any interleaving of the threads from the initial state.
  ghost predicate IsRun(run: seq<State>, acts: seq<Action>) {
    && |run| == |acts| + 1
    && run[0] == INITIAL
    && forall k :: 0 <= k < |acts| ==> Enabled(run[k], acts[k]) && run[k + 1] == Do(run[k], acts[k])
  }

  /* ---------- The inductive invariant ---------- */

  // Where device d stands in the timer's current round.
  datatype Stage = Fresh      // not collected yet, or already released
                 | Collected  // the timer has seen it done or finished, and has not ticked since
                 | Pending    // the tick has happened, done has not been cleared yet

  function StageOf(t: TimerPc, d: nat): Stage {
    match t
    case TWantE(i) => if d > i then Collected else Fresh
    case TTest(i) => if d > i then Collected else Fresh
    case TAsleep(i) => if d > i then Collected else Fresh
    case TCount(i) => if d >= i then Collected else Fresh
    case TUnlockE(i) => if d >= i then Collected else Fresh
    case TTick => Collected
    case TWantT(i) => if d <= i then Pending else Fresh
    case TClear(i) => if d <= i then Pending else Fresh
    case TSignal(i) => if d < i then Pending else Fresh
    case TUnlockT(i) => if d < i then Pending else Fresh
    case _ => Fresh
  }

  // How many slots an unfinished device has been released into.
  function Base(t: TimerPc, time: nat, d: nat): int {
    if StageOf(t, d).Pending? then time - 1 else time
  }

  predicate Announced(v: Dev) { v.done || v.pc.WantE? || v.pc.AtSet? }

  predicate PcOk(v: Dev) {
    match v.pc
    case Out => !v.done && !v.fsh
    case WantE => !v.done && !v.fsh
    case AtSet => !v.done && !v.fsh
    case AtSignalE => v.done && !v.fsh
    case AtUnlockE => v.done && !v.fsh
    case WantT => !v.fsh
    case AtTest => !v.fsh
    case Asleep => !v.fsh
    case AtLeave => !v.done && !v.fsh
    case WantD => !v.done && !v.fsh
    case AtFsh => !v.done && !v.fsh
    case _ => !v.done && v.fsh
  }

  predicate HoldsEvent(pc: DevPc) {
    pc.AtSet? || pc.AtSignalE? || pc.AtUnlockE? || pc.AtFsh? || pc.AtSignalD? || pc.AtUnlockD?
  }

  predicate LocksOk(t: TimerPc, d: nat, v: Dev) {
    && (v.event.ByDevice? <==> HoldsEvent(v.pc))
    && (v.event.ByTimer? <==> t == TTest(d) || t == TCount(d) || t == TUnlockE(d))
    && (v.timer.ByDevice? <==> v.pc.AtTest? || v.pc.AtLeave?)
    && (v.timer.ByTimer? <==> t == TClear(d) || t == TSignal(d) || t == TUnlockT(d))
  }

  predicate DevOk(t: TimerPc, time: nat, d: nat, v: Dev) {
    && PcOk(v)
    && LocksOk(t, d, v)
    && (!StageOf(t, d).Fresh? ==> v.done || v.fsh)
    && (v.pc.AtSignalE? || v.pc.AtUnlockE? ==> StageOf(t, d).Fresh?)
    && (!v.fsh ==> v.released == Base(t, time, d) &&
                   v.calls == v.released + (if Announced(v) then 1 else 0))
    && (v.pc.Asleep? ==> v.done || t == TSignal(d))
    && (t == TAsleep(d) ==> (!v.done && !v.fsh) || v.pc.AtSignalE? || v.pc.AtSignalD?)
  }

  // The timer has already counted device d in this round.
  predicate Counted(t: TimerPc, d: nat) {
    match t
    case TCount(i) => d > i
    case _ => StageOf(t, d).Collected?
  }

  function NumCounted(t: TimerPc, n: nat): int {
    match t
    case TWantE(i) => n - 1 - i
    case TTest(i) => n - 1 - i
    case TAsleep(i) => n - 1 - i
    case TCount(i) => n - 1 - i
    case TUnlockE(i) => n - i
    case _ => n
  }

  predicate Collecting(t: TimerPc) {
    t.TWantE? || t.TTest? || t.TAsleep? || t.TCount? || t.TUnlockE? || t.TTick?
  }

  predicate Releasing(t: TimerPc) {
    t.TWantT? || t.TClear? || t.TSignal? || t.TUnlockT? || t.TJudge?
  }

  ghost predicate CountedFinished(t: TimerPc, devs: seq<Dev>) {
    forall d :: 0 <= d < |devs| && Counted(t, d) ==> devs[d].fsh
  }

  ghost predicate CountsOk(s: State) {
    && (Collecting(s.timer) ==>
          && s.event == NumCounted(s.timer, |s.devs|)
          && s.fsh <= s.event
          && (s.fsh == s.event <==> CountedFinished(s.timer, s.devs)))
    && (Releasing(s.timer) ==> s.event == |s.devs| && (s.fsh == s.event ==> AllFinished(s)))
    && (s.timer.TExit? ==> AllFinished(s))
    && (s.stop ==> !s.timer.Idle? && AllFinished(s))
    && (s.timer.Idle? ==> s.time == 0)
  }

  ghost predicate Inv(s: State) {
    && InRange(s)
    && CountsOk(s)
    && (forall d :: 0 <= d < |s.devs| ==> DevOk(s.timer, s.time, d, s.devs[d]))
  }

  predicate At(t: TimerPc, d: nat) {
    match t
    case TWantE(i) => i == d
    case TTest(i) => i == d
    case TAsleep(i) => i == d
    case TCount(i) => i == d
    case TUnlockE(i) => i == d
    case TWantT(i) => i == d
    case TClear(i) => i == d
    case TSignal(i) => i == d
    case TUnlockT(i) => i == d
    case _ => false
  }

  // One device at a time: the timer's next step keeps what is known of the
  // device it deals with, when it collects it ...
  lemma CollectKeepsOwn(s: State, d: nat)
    requires InRange(s) && TimerEnabled(s) && At(s.timer, d) && DevOk(s.timer, s.time, d, s.devs[d])
    requires Collecting(s.timer)
    ensures DevOk(TimerDo(s).timer, TimerDo(s).time, d, TimerDo(s).devs[d])
  {
  }

  // ... and when it releases it ...
  lemma ReleaseKeepsOwn(s: State, d: nat)
    requires InRange(s) && TimerEnabled(s) && At(s.timer, d) && DevOk(s.timer, s.time, d, s.devs[d])
    requires Releasing(s.timer)
    ensures DevOk(TimerDo(s).timer, TimerDo(s).time, d, TimerDo(s).devs[d])
  {
  }

  // ... and of every other one.
  lemma TimerKeepsOther(s: State, d: nat)
    requires InRange(s) && TimerEnabled(s) && d < |s.devs| && DevOk(s.timer, s.time, d, s.devs[d])
    requires !At(s.timer, d)
    ensures DevOk(TimerDo(s).timer, TimerDo(s).time, d, TimerDo(s).devs[d])
  {
    assert TimerDo(s).devs[d] == s.devs[d];
  }

  lemma CountingKeepsCounts(s: State)
    requires Inv(s) && s.timer.TCount?
    ensures InRange(TimerDo(s)) && CountsOk(TimerDo(s))
  {
  }

  lemma CollectingCountsNobody(s: State)
    requires Inv(s) && TimerEnabled(s) && Collecting(s.timer) && !s.timer.TCount? && !s.timer.TTick?
    ensures var s' := TimerDo(s);
      && Collecting(s'.timer) && InRange(s') && |s'.devs| == |s.devs|
      && NumCounted(s'.timer, |s.devs|) == NumCounted(s.timer, |s.devs|)
      && s'.event == s.event && s'.fsh == s.fsh && s'.stop == s.stop
      && (forall d :: 0 <= d < |s.devs| ==> s'.devs[d].fsh == s.devs[d].fsh)
      && (forall d :: 0 <= d < |s.devs| ==> (Counted(s'.timer, d) <==> Counted(s.timer, d)))
  {
  }

  lemma CollectingKeepsCounts(s: State)
    requires Inv(s) && TimerEnabled(s) && Collecting(s.timer) && !s.timer.TCount? && !s.timer.TTick?
    ensures InRange(TimerDo(s)) && CountsOk(TimerDo(s))
  {
    CollectingCountsNobody(s);
  }

  lemma TickKeepsCounts(s: State)
    requires Inv(s) && s.timer.TTick?
    ensures InRange(TimerDo(s)) && CountsOk(TimerDo(s))
  {
  }

  lemma ReleasingKeepsCounts(s: State)
    requires Inv(s) && TimerEnabled(s) && !Collecting(s.timer)
    ensures InRange(TimerDo(s)) && CountsOk(TimerDo(s))
  {
  }

  lemma TimerKeepsInv(s: State)
    requires Inv(s) && TimerEnabled(s)
    ensures Inv(TimerDo(s))
  {
    if s.timer.TCount? {
      CountingKeepsCounts(s);
    } else if s.timer.TTick? {
      TickKeepsCounts(s);
    } else if Collecting(s.timer) {
      CollectingKeepsCounts(s);
    } else {
      ReleasingKeepsCounts(s);
    }
    forall d | 0 <= d < |s.devs| ensures DevOk(TimerDo(s).timer, TimerDo(s).time, d, TimerDo(s).devs[d]) {
      if !At(s.timer, d) {
        TimerKeepsOther(s, d);
      } else if Collecting(s.timer) {
        CollectKeepsOwn(s, d);
      } else {
        ReleaseKeepsOwn(s, d);
      }
    }
  }

  predicate UsesEvent(pc: DevPc) { pc.WantE? || pc.WantD? || HoldsEvent(pc) }

  lemma EventStepKeepsOwn(s: State, d: nat)
    requires InRange(s) && d < |s.devs| && DeviceEnabled(s.devs[d]) && DevOk(s.timer, s.time, d, s.devs[d])
    requires UsesEvent(s.devs[d].pc)
    ensures DevOk(DeviceDo(s, d).timer, DeviceDo(s, d).time, d, DeviceDo(s, d).devs[d])
  {
  }

  lemma WaitStepKeepsOwn(s: State, d: nat)
    requires InRange(s) && d < |s.devs| && DeviceEnabled(s.devs[d]) && DevOk(s.timer, s.time, d, s.devs[d])
    requires !UsesEvent(s.devs[d].pc)
    ensures DevOk(DeviceDo(s, d).timer, DeviceDo(s, d).time, d, DeviceDo(s, d).devs[d])
  {
  }

  lemma DeviceKeepsOwn(s: State, d: nat)
    requires InRange(s) && d < |s.devs| && DeviceEnabled(s.devs[d]) && DevOk(s.timer, s.time, d, s.devs[d])
    ensures DevOk(DeviceDo(s, d).timer, DeviceDo(s, d).time, d, DeviceDo(s, d).devs[d])
  {
    if UsesEvent(s.devs[d].pc) { EventStepKeepsOwn(s, d); } else { WaitStepKeepsOwn(s, d); }
  }

  lemma DeviceKeepsOther(s: State, e: nat, d: nat)
    requires InRange(s) && e < |s.devs| && DeviceEnabled(s.devs[e]) && d < |s.devs| && d != e
    requires DevOk(s.timer, s.time, d, s.devs[d])
    ensures DevOk(DeviceDo(s, e).timer, DeviceDo(s, e).time, d, DeviceDo(s, e).devs[d])
  {
  }

  // A device that the timer has counted does not change its fsh: it is either
  // finished already or inside next_slot until the timer clears its done.
  lemma DeviceKeepsCounts(s: State, e: nat)
    requires Inv(s) && e < |s.devs| && DeviceEnabled(s.devs[e])
    ensures InRange(DeviceDo(s, e)) && CountsOk(DeviceDo(s, e))
  {
    assert DevOk(s.timer, s.time, e, s.devs[e]);
    DeviceFlags(s, e);
    var s' := DeviceDo(s, e);
    assert forall d :: 0 <= d < |s.devs| ==> (Counted(s'.timer, d) <==> Counted(s.timer, d));
  }

  lemma DeviceFlags(s: State, e: nat)
    requires InRange(s) && e < |s.devs| && DeviceEnabled(s.devs[e]) && DevOk(s.timer, s.time, e, s.devs[e])
    ensures var s' := DeviceDo(s, e);
      && |s'.devs| == |s.devs|
      && (forall d :: 0 <= d < |s.devs| && d != e ==> s'.devs[d] == s.devs[d])
      && (s.devs[e].fsh ==> s'.devs[e].fsh)
      && (Counted(s.timer, e) ==> s'.devs[e].fsh == s.devs[e].fsh)
      && s'.time == s.time && s'.fsh == s.fsh && s'.event == s.event && s'.stop == s.stop
      && s'.timer == (if s.devs[e].pc.AtSignalE? || s.devs[e].pc.AtSignalD? then Signalled(s.timer, e) else s.timer)
  {
  }

  lemma DeviceKeepsInv(s: State, e: nat)
    requires Inv(s) && e < |s.devs| && DeviceEnabled(s.devs[e])
    ensures Inv(DeviceDo(s, e))
  {
    DeviceKeepsCounts(s, e);
    forall d | 0 <= d < |s.devs| ensures DevOk(DeviceDo(s, e).timer, DeviceDo(s, e).time, d, DeviceDo(s, e).devs[d]) {
      if d == e { DeviceKeepsOwn(s, d); } else { DeviceKeepsOther(s, e, d); }
    }
  }

  // A device enters next_slot or detach_event, or wakes up: only its pc and calls change.
  lemma OwnPcKeepsInv(s: State, d: nat, v: Dev)
    requires Inv(s) && d < |s.devs| && v.fsh == s.devs[d].fsh && DevOk(s.timer, s.time, d, v)
    ensures Inv(s.(devs := s.devs[d := v]))
  {
  }

  lemma WakeKeepsInv(s: State)
    requires Inv(s) && Enabled(s, TimerSpurious)
    ensures Inv(Do(s, TimerSpurious))
  {
  }

  lemma MainKeepsInv(s: State, a: Action)
    requires Inv(s) && Enabled(s, a) && (a.Attach? || a.Start? || a.Stop?)
    ensures Inv(Do(s, a))
  {
    if a.Stop? {
      assert forall d :: 0 <= d < |s.devs| ==> DevOk(s.timer, s.time, d, s.devs[d]);
    }
  }

  lemma PcStepKeepsInv(s: State, a: Action)
    requires Inv(s) && Enabled(s, a) && (a.Call? || a.Leave? || a.DeviceSpurious?)
    ensures Inv(Do(s, a))
  {
    assert DevOk(s.timer, s.time, a.d, s.devs[a.d]);
    OwnPcKeepsInv(s, a.d, Do(s, a).devs[a.d]);
  }

  lemma StepKeepsInv(s: State, a: Action)
    requires Inv(s) && Enabled(s, a)
    ensures Inv(Do(s, a))
  {
    if a.Timer? {
      TimerKeepsInv(s);
    } else if a.TimerSpurious? {
      WakeKeepsInv(s);
    } else if a.Device? {
      DeviceKeepsInv(s, a.d);
    } else if a.Attach? || a.Start? || a.Stop? {
      MainKeepsInv(s, a);
    } else {
      PcStepKeepsInv(s, a);
    }
  }
}

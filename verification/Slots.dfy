/** What a client of the timer may rely on: time advances only when every client
    that has not left waits for exactly the slot that ends, and a waiting client
    is let go only after that.  Module Barrier shows that src/timer.c refines this
    machine; module Dispatch runs the CPUs and the loader on top of it. */
module Slots {

  datatype Mode = Working | Waiting | Left

  // calls: how many times the client has called next_slot
  datatype Client = Client(mode: Mode, calls: nat)

  datatype State = State(time: nat, clients: seq<Client>)

  datatype Action = Attach | Enter(c: nat) | Return(c: nat) | Detach(c: nat) | Tick

  predicate MayTick(s: State) {
    forall c :: 0 <= c < |s.clients| ==>
      s.clients[c].mode.Left? || (s.clients[c].mode.Waiting? && s.clients[c].calls == s.time + 1)
  }

  predicate Enabled(s: State, a: Action) {
    match a
    case Attach => s.time == 0
    case Enter(c) => c < |s.clients| && s.clients[c].mode.Working?
    case Return(c) => c < |s.clients| && s.clients[c].mode.Waiting? && s.clients[c].calls == s.time
    case Detach(c) => c < |s.clients| && s.clients[c].mode.Working?
    case Tick => MayTick(s)
  }

  function Do(s: State, a: Action): State
    requires Enabled(s, a)
  {
    match a
    case Attach => s.(clients := s.clients + [Client(Working, 0)])
    case Enter(c) => s.(clients := s.clients[c := Client(Waiting, s.clients[c].calls + 1)])
    case Return(c) => s.(clients := s.clients[c := s.clients[c].(mode := Working)])
    case Detach(c) => s.(clients := s.clients[c := s.clients[c].(mode := Left)])
    case Tick => s.(time := s.time + 1)
  }

  const INITIAL := State(0, [])

  ghost predicate Reaches(s: State, acts: seq<Action>, s': State)
    decreases |acts|
  {
    if acts == [] then s' == s
    else Enabled(s, acts[0]) && Reaches(Do(s, acts[0]), acts[1..], s')
  }

  lemma {:induction false} ReachesStep(s: State, acts: seq<Action>, mid: State, a: Action)
    requires Reaches(s, acts, mid) && Enabled(mid, a)
    ensures Reaches(s, acts + [a], Do(mid, a))
    decreases |acts|
  {
    if acts == [] {
      assert ([a])[1..] == [];
    } else {
      ReachesStep(Do(s, acts[0]), acts[1..], mid, a);
      assert (acts + [a])[1..] == acts[1..] + [a];
    }
  }

  // A working client has been let into the current slot; a waiting one has
  // either not been let go yet or is about to be.
  predicate ClientOk(time: nat, c: Client) {
    match c.mode
    case Working => c.calls == time
    case Waiting => c.calls == time || c.calls == time + 1
    case Left => true
  }

  predicate Inv(s: State) {
    forall c :: 0 <= c < |s.clients| ==> ClientOk(s.time, s.clients[c])
  }

  lemma InvKept(s: State, a: Action)
    requires Inv(s) && Enabled(s, a)
    ensures Inv(Do(s, a))
  {
  }
}

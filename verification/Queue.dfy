/** src/queue.c on its fixed array, and kill_all_in_queue of src/sys_killall.c,
    proved against the functions of module ReadyQueue. */
module Queue {
  import opened Options
  import opened ReadyQueue

  class Queue {
    const proc: array<Pcb>
    var size: nat

    ghost predicate Valid()
      reads this
    {
      proc.Length == MAX_QUEUE_SIZE && size <= MAX_QUEUE_SIZE
    }

    ghost function Contents(): (s: seq<Pcb>)
      reads this, proc
      requires Valid()
    {
      proc[..size]
    }

    constructor ()
      ensures Valid() && fresh(proc) && Contents() == []
    {
      proc := new Pcb[MAX_QUEUE_SIZE];
      size := 0;
    }
  }

  method Empty(q: Queue?) returns (r: bool)
    requires q != null ==> q.Valid()
    ensures r <==> q == null || q.Contents() == []
  {
    if q == null { return true; }
    r := q.size == 0;
  }

  method Enqueue(q: Queue, p: Pcb)
    requires q.Valid()
    modifies q, q.proc
    ensures q.Valid() && q.Contents() == Enqueued(old(q.Contents()), p)
  {
    if q.size >= MAX_QUEUE_SIZE { return; }
    q.proc[q.size] := p;
    q.size := q.size + 1;
  }

  // The scan of dequeue: the first process of maximal priority.
  method BestIndex(q: Queue) returns (best: nat)
    requires q.Valid() && q.Contents() != []
    ensures best < q.size && best == Best(q.Contents())
  {
    best := 0;
    var i := 1;
    while i < q.size
      invariant best < i <= q.size
      invariant forall j :: 0 <= j < i ==> q.proc[j].priority <= q.proc[best].priority
      invariant forall j :: 0 <= j < best ==> q.proc[j].priority < q.proc[best].priority
    {
      if q.proc[i].priority > q.proc[best].priority { best := i; }
      i := i + 1;
    }
    assert FirstMax(q.Contents(), best);
    FirstMaxUnique(q.Contents(), best, Best(q.Contents()));
  }

  // The left shift of dequeue.
  method RemoveAt(q: Queue, best: nat)
    requires q.Valid() && best < q.size
    modifies q, q.proc
    ensures q.Valid() && q.Contents() == Without(old(q.Contents()), best)
  {
    var i := best;
    while i < q.size - 1
      invariant best <= i <= q.size - 1 && q.size == old(q.size)
      invariant forall k :: 0 <= k < best ==> q.proc[k] == old(q.proc[k])
      invariant forall k :: best <= k < i ==> q.proc[k] == old(q.proc[k + 1])
      invariant forall k :: i <= k < q.size ==> q.proc[k] == old(q.proc[k])
    {
      q.proc[i] := q.proc[i + 1];
      i := i + 1;
    }
    q.size := q.size - 1;
    assert forall k :: 0 <= k < q.size ==> q.Contents()[k] == old(q.Contents())[if k < best then k else k + 1];
  }

  method Dequeue(q: Queue?) returns (r: Option<Pcb>)
    requires q != null ==> q.Valid()
    modifies if q == null then {} else {q as object, q.proc}
    ensures q != null ==> q.Valid()
    ensures r.None? <==> q == null || old(q.Contents()) == []
    ensures q != null && r.None? ==> q.Contents() == old(q.Contents())
    ensures r.Some? ==>
      && r.value == old(q.Contents())[Best(old(q.Contents()))]
      && q.Contents() == Rest(old(q.Contents()))
  {
    var none := Empty(q);
    if none { return None; }
    var best := BestIndex(q);
    var selected := q.proc[best];
    RemoveAt(q, best);
    return Some(selected);
  }

  /* ---------- kill_all_in_queue ---------- */

  // The processes whose name is not the one to kill, in order.
  function Survivors(s: seq<Pcb>, name: string): seq<Pcb> {
    if s == [] then []
    else (if s[0].path == name then [] else [s[0]]) + Survivors(s[1..], name)
  }

  lemma {:induction false} SurvivorsMembers(s: seq<Pcb>, name: string, p: Pcb)
    ensures p in Survivors(s, name) <==> p in s && p.path != name
  {
    if s != [] { SurvivorsMembers(s[1..], name, p); }
  }

  // Those of that name are gone, and every other one is there as often as before.
  lemma {:induction false} SurvivorsCount(s: seq<Pcb>, name: string, p: Pcb)
    ensures multiset(Survivors(s, name))[p] == if p.path == name then 0 else multiset(s)[p]
  {
    if s != [] {
      SurvivorsCount(s[1..], name, p);
      assert s == [s[0]] + s[1..];
    }
  }

  lemma KillLeaves(q: seq<Pcb>, name: string)
    ensures var r := Survivors(Drain(q), name);
      NonIncreasing(r) && forall p :: multiset(r)[p] == if p.path == name then 0 else multiset(q)[p]
  {
    DrainNonIncreasing(q);
    SurvivorsNonIncreasing(Drain(q), name);
    DrainPermutes(q);
    forall p ensures multiset(Survivors(Drain(q), name))[p] == if p.path == name then 0 else multiset(q)[p] {
      SurvivorsCount(Drain(q), name, p);
    }
  }

  lemma {:induction false} SurvivorsNonIncreasing(s: seq<Pcb>, name: string)
    requires NonIncreasing(s)
    ensures NonIncreasing(Survivors(s, name))
  {
    if s != [] {
      SurvivorsNonIncreasing(s[1..], name);
      forall j | 0 <= j < |Survivors(s[1..], name)|
        ensures Survivors(s[1..], name)[j].priority <= s[0].priority
      {
        SurvivorsMembers(s[1..], name, Survivors(s[1..], name)[j]);
      }
    }
  }

  // Killing does not disturb the order in which the others would have been
  // dispatched: what the queue holds afterwards drains to the old drain order
  // with exactly the processes of that name left out.
  lemma KillKeepsOrder(q: seq<Pcb>, name: string)
    ensures Drain(Survivors(Drain(q), name)) == Survivors(Drain(q), name)
  {
    DrainNonIncreasing(q);
    SurvivorsNonIncreasing(Drain(q), name);
    DrainOfSorted(Survivors(Drain(q), name));
  }

  lemma MoveSurvivor(c: seq<Pcb>, q: seq<Pcb>, name: string)
    requires q != []
    ensures var p := q[Best(q)];
      (if p.path == name then c else c + [p]) + Survivors(Drain(Rest(q)), name) == c + Survivors(Drain(q), name)
  {
  }

  // One round of the first loop: move or drop the process dispatched next.
  method MoveOne(q: Queue, temp: Queue, name: string)
    requires q.Valid() && temp.Valid() && q != temp && q.proc != temp.proc
    requires q.Contents() != [] && temp.size + q.size <= MAX_QUEUE_SIZE
    modifies q, q.proc, temp, temp.proc
    ensures q.Valid() && temp.Valid() && q.size == old(q.size) - 1 && temp.size + q.size <= MAX_QUEUE_SIZE
    ensures temp.Contents() + Survivors(Drain(q.Contents()), name)
         == old(temp.Contents()) + Survivors(Drain(old(q.Contents())), name)
  {
    ghost var c := temp.Contents();
    MoveSurvivor(c, q.Contents(), name);
    var p := Dequeue(q);
    assert temp.Contents() == c;
    if p.value.path != name { Enqueue(temp, p.value); }
  }

  // First loop: everything that survives goes to the temporary queue.
  method MoveSurvivors(q: Queue, temp: Queue, name: string)
    requires q.Valid() && temp.Valid() && q != temp && q.proc != temp.proc && temp.Contents() == []
    modifies q, q.proc, temp, temp.proc
    ensures q.Valid() && temp.Valid() && q.Contents() == []
    ensures temp.Contents() == Survivors(Drain(old(q.Contents())), name)
  {
    ghost var kept := Survivors(Drain(q.Contents()), name);
    var none := Empty(q);
    while !none
      invariant q.Valid() && temp.Valid()
      invariant none <==> q.Contents() == []
      invariant temp.size + q.size <= MAX_QUEUE_SIZE
      invariant temp.Contents() + Survivors(Drain(q.Contents()), name) == kept
      decreases q.size
    {
      MoveOne(q, temp, name);
      none := Empty(q);
    }
  }

  lemma MoveHead(c: seq<Pcb>, t: seq<Pcb>)
    requires t != []
    ensures (c + [t[Best(t)]]) + Drain(Rest(t)) == c + Drain(t)
  {
  }

  method RestoreOne(q: Queue, temp: Queue)
    requires q.Valid() && temp.Valid() && q != temp && q.proc != temp.proc
    requires temp.Contents() != [] && temp.size + q.size <= MAX_QUEUE_SIZE
    modifies q, q.proc, temp, temp.proc
    ensures q.Valid() && temp.Valid() && temp.size == old(temp.size) - 1 && temp.size + q.size <= MAX_QUEUE_SIZE
    ensures q.Contents() + Drain(temp.Contents()) == old(q.Contents()) + Drain(old(temp.Contents()))
  {
    ghost var c, t := q.Contents(), temp.Contents();
    MoveHead(c, t);
    var p := Dequeue(temp);
    assert q.Contents() == c;
    Enqueue(q, p.value);
  }

  // Second loop: the survivors go back, in the order the temporary queue drains.
  method Restore(q: Queue, temp: Queue)
    requires q.Valid() && temp.Valid() && q != temp && q.proc != temp.proc && q.Contents() == []
    modifies q, q.proc, temp, temp.proc
    ensures q.Valid() && q.Contents() == Drain(old(temp.Contents()))
  {
    ghost var kept := Drain(temp.Contents());
    var none := Empty(temp);
    while !none
      invariant q.Valid() && temp.Valid()
      invariant none <==> temp.Contents() == []
      invariant temp.size + q.size <= MAX_QUEUE_SIZE
      invariant q.Contents() + Drain(temp.Contents()) == kept
      decreases temp.size
    {
      RestoreOne(q, temp);
      none := Empty(temp);
    }
  }

  method KillAllInQueue(q: Queue?, name: string)
    requires q != null ==> q.Valid()
    modifies if q == null then {} else {q as object, q.proc}
    ensures q != null ==> q.Valid() && q.Contents() == Survivors(Drain(old(q.Contents())), name)
    ensures q != null ==> Drain(q.Contents()) == Survivors(Drain(old(q.Contents())), name)
    ensures q != null ==> NonIncreasing(q.Contents())
    ensures q != null ==>
      forall p :: multiset(q.Contents())[p] == if p.path == name then 0 else multiset(old(q.Contents()))[p]
  {
    if q == null { return; }
    KillKeepsOrder(q.Contents(), name);
    KillLeaves(q.Contents(), name);
    var temp := new Queue();
    MoveSurvivors(q, temp, name);
    Restore(q, temp);
  }
}

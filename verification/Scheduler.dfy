/** The scheduler state of src/sched.c (MLQ_SCHED).  Each method that changes the
    queues is one critical section under queue_lock, except PutProc, which is two. */
module Scheduler {
  import opened Options
  import opened ReadyQueue
  import opened Mlq
  import Q = Queue

  class Scheduler {
    const mlqReadyQueue: array<Q.Queue>
    const runningList: Q.Queue
    ghost var levels: Levels  // what the queues hold

    ghost function Repr(): set<object>
      reads mlqReadyQueue
    {
      {this, runningList, runningList.proc}
      + (set i | 0 <= i < mlqReadyQueue.Length :: mlqReadyQueue[i])
      + (set i | 0 <= i < mlqReadyQueue.Length :: mlqReadyQueue[i].proc)
    }

    ghost predicate Apart(i: nat, j: nat)
      reads mlqReadyQueue
      requires i < mlqReadyQueue.Length && j < mlqReadyQueue.Length
    {
      mlqReadyQueue[i] != mlqReadyQueue[j] && mlqReadyQueue[i].proc != mlqReadyQueue[j].proc
    }

    // No two queues share storage.
    ghost predicate Separate()
      reads mlqReadyQueue
    {
      && mlqReadyQueue.Length == MAX_PRIO
      && (forall i :: 0 <= i < MAX_PRIO ==>
            mlqReadyQueue[i] != runningList && mlqReadyQueue[i].proc != runningList.proc)
      && (forall i, j :: 0 <= i < MAX_PRIO && 0 <= j < MAX_PRIO && i != j ==> Apart(i, j))
    }

    ghost predicate Holds(l: nat)
      reads this, mlqReadyQueue
      reads if l < mlqReadyQueue.Length then {mlqReadyQueue[l] as object, mlqReadyQueue[l].proc} else {}
      requires l < mlqReadyQueue.Length && l < |levels|
    {
      mlqReadyQueue[l].Valid() && mlqReadyQueue[l].Contents() == levels[l]
    }

    ghost predicate Valid()
      reads mlqReadyQueue, Repr()
    {
      && Separate() && runningList.Valid()
      && |levels| == MAX_PRIO
      && forall l :: 0 <= l < MAX_PRIO ==> Holds(l)
    }

    // The static arrays of the source file.
    constructor ()
      ensures Valid() && fresh(Repr()) && fresh(mlqReadyQueue)
    {
      var list := new Q.Queue();
      var queues := NewQueues(list);
      runningList := list;
      mlqReadyQueue := queues;
      levels := seq(MAX_PRIO, _ => []);
      new;
      assert forall l :: 0 <= l < MAX_PRIO ==> Holds(l);
    }

    static method NewQueues(list: Q.Queue) returns (queues: array<Q.Queue>)
      requires list.Valid()
      ensures fresh(queues) && queues.Length == MAX_PRIO
      ensures forall k :: 0 <= k < MAX_PRIO ==>
        fresh(queues[k]) && fresh(queues[k].proc) && queues[k].Valid() && queues[k].Contents() == []
      ensures forall j, k :: 0 <= j < k < MAX_PRIO ==> queues[j] != queues[k] && queues[j].proc != queues[k].proc
    {
      queues := new Q.Queue[MAX_PRIO](_ => list);
      var i := 0;
      while i < MAX_PRIO
        invariant i <= MAX_PRIO
        invariant forall k :: 0 <= k < i ==>
          fresh(queues[k]) && fresh(queues[k].proc) && queues[k].Valid() && queues[k].Contents() == []
        invariant forall j, k :: 0 <= j < k < i ==> queues[j] != queues[k] && queues[j].proc != queues[k].proc
      {
        queues[i] := new Q.Queue();
        i := i + 1;
      }
    }

    method InitScheduler()
      requires Valid()
      modifies Repr()
      ensures Valid() && runningList.Contents() == []
      ensures forall l :: 0 <= l < MAX_PRIO ==> levels[l] == []
    {
      forall l | 0 <= l < MAX_PRIO ensures mlqReadyQueue[l].Valid() { assert Holds(l); }
      var i := 0;
      while i < MAX_PRIO
        invariant i <= MAX_PRIO && runningList.Valid()
        invariant forall l :: 0 <= l < MAX_PRIO ==> mlqReadyQueue[l].Valid()
        invariant forall l :: 0 <= l < i ==> mlqReadyQueue[l].size == 0
      {
        mlqReadyQueue[i].size := 0;
        i := i + 1;
      }
      runningList.size := 0;
      levels := seq(MAX_PRIO, _ => []);
      assert forall l :: 0 <= l < MAX_PRIO ==> mlqReadyQueue[l].Contents() == [];
    }

    // The downward scan of get_mlq_proc: the highest non-empty level, or -1.
    method HighestLevel() returns (prio: int)
      requires Valid()
      ensures prio == match TopLevel(levels, MAX_PRIO) case None => -1 case Some(l) => l
    {
      prio := MAX_PRIO - 1;
      while prio >= 0
        invariant -1 <= prio < MAX_PRIO
        invariant forall l :: prio < l < MAX_PRIO ==> levels[l] == []
      {
        assert Holds(prio);
        var none := Q.Empty(mlqReadyQueue[prio]);
        if !none { break; }
        prio := prio - 1;
      }
    }

    method DequeueAt(prio: nat) returns (p: Pcb)
      requires Valid() && prio < MAX_PRIO && levels[prio] != []
      modifies this, mlqReadyQueue[prio], mlqReadyQueue[prio].proc
      ensures Valid() && p == old(levels[prio])[Best(old(levels[prio]))]
      ensures levels == old(levels)[prio := Rest(old(levels[prio]))]
    {
      assert Holds(prio);
      var r := Q.Dequeue(mlqReadyQueue[prio]);
      p := r.value;
      levels := levels[prio := Rest(levels[prio])];
      forall l | 0 <= l < MAX_PRIO && l != prio ensures Holds(l) {
        assert old(Holds(l)) && Apart(l, prio);
      }
    }

    // get_mlq_proc and get_proc
    method GetProc() returns (r: Option<Pcb>)
      requires Valid()
      modifies Repr() - {runningList, runningList.proc}
      ensures Valid() && (r, levels) == Got(old(levels))
    {
      var prio := HighestLevel();
      if prio < 0 { return None; }
      var p := DequeueAt(prio);
      return Some(p);
    }

    // put_mlq_proc and add_mlq_proc
    method PutMlqProc(p: Pcb)
      requires Valid() && p.prio < MAX_PRIO
      modifies this, mlqReadyQueue[p.prio], mlqReadyQueue[p.prio].proc
      ensures Valid() && levels == Put(old(levels), p)
      ensures runningList.Contents() == old(runningList.Contents())
    {
      assert Holds(p.prio);
      Q.Enqueue(mlqReadyQueue[p.prio], p);
      levels := Put(levels, p);
      forall l | 0 <= l < MAX_PRIO && l != p.prio ensures Holds(l) {
        assert old(Holds(l)) && Apart(l, p.prio);
      }
    }

    // The first critical section of put_proc and add_proc.
    method PutRunningList(p: Pcb)
      requires Valid()
      modifies runningList, runningList.proc
      ensures Valid() && levels == old(levels)
      ensures runningList.Contents() == Enqueued(old(runningList.Contents()), p)
    {
      Q.Enqueue(runningList, p);
      forall l | 0 <= l < MAX_PRIO ensures Holds(l) { assert old(Holds(l)); }
    }

    // put_proc and add_proc: whether or not there is room in the running list, the
    // process goes to its level.
    method PutProc(p: Pcb)
      requires Valid() && p.prio < MAX_PRIO
      modifies Repr()
      ensures Valid() && levels == Put(old(levels), p)
      ensures runningList.Contents() == Enqueued(old(runningList.Contents()), p)
    {
      PutRunningList(p);
      PutMlqProc(p);
    }
  }
}

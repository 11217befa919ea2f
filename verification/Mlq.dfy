/** The multi-level ready queue of src/sched.c (MLQ_SCHED): 140 bounded queues,
    scanned from the top.  It refines one list kept in dispatch order. */
module Mlq {
  import opened Options
  import opened ReadyQueue

  const MAX_PRIO: nat := 140

  type Levels = seq<seq<Pcb>>

  // Level l holds processes of prio l, at most MAX_QUEUE_SIZE of them.
  ghost predicate WellPlaced(ls: Levels) {
    && |ls| == MAX_PRIO
    && forall l :: 0 <= l < |ls| ==> LevelOk(ls[l], l)
  }

  ghost predicate LevelOk(q: seq<Pcb>, l: nat) {
    |q| <= MAX_QUEUE_SIZE && forall i :: 0 <= i < |q| ==> q[i].prio == l
  }

  // The highest non-empty level below n.
  function TopLevel(ls: Levels, n: nat): (r: Option<nat>)
    requires n <= |ls|
    ensures r.Some? ==> r.value < n && ls[r.value] != [] && forall l :: r.value < l < n ==> ls[l] == []
    ensures r.None? ==> forall l :: 0 <= l < n ==> ls[l] == []
  {
    if n == 0 then None else if ls[n - 1] != [] then Some(n - 1) else TopLevel(ls, n - 1)
  }

  // get_mlq_proc
  function Got(ls: Levels): (Option<Pcb>, Levels) {
    match TopLevel(ls, |ls|)
    case None => (None, ls)
    case Some(l) => (Some(ls[l][Best(ls[l])]), ls[l := Rest(ls[l])])
  }

  // put_mlq_proc and add_mlq_proc
  function Put(ls: Levels, p: Pcb): Levels
    requires p.prio < |ls|
  {
    ls[p.prio := Enqueued(ls[p.prio], p)]
  }

  /* ---------- The order of dispatch ---------- */

  predicate Outranks(p: Pcb, q: Pcb) {
    p.prio > q.prio || (p.prio == q.prio && p.priority > q.priority)
  }

  // All queued processes of the n lowest levels, first to be dispatched first.
  function Order(ls: Levels, n: nat): seq<Pcb>
    requires n <= |ls|
  {
    if n == 0 then [] else Drain(ls[n - 1]) + Order(ls, n - 1)
  }

  // p goes behind everything it does not outrank.
  function Inserted(s: seq<Pcb>, p: Pcb): seq<Pcb> {
    if s == [] then [p]
    else if Outranks(p, s[0]) then [p] + s
    else [s[0]] + Inserted(s[1..], p)
  }

  ghost predicate Ranked(s: seq<Pcb>) {
    forall i, j :: 0 <= i < j < |s| ==> !Outranks(s[j], s[i])
  }

  lemma {:induction false} OrderMembers(ls: Levels, n: nat, p: Pcb)
    requires WellPlaced(ls) && n <= |ls|
    ensures p in Order(ls, n) <==> p.prio < n && p in ls[p.prio]
  {
    if n > 0 {
      OrderMembers(ls, n - 1, p);
      DrainMembers(ls[n - 1], p);
      assert LevelOk(ls[n - 1], n - 1);
    }
  }

  lemma {:induction false} OrderRanked(ls: Levels, n: nat)
    requires WellPlaced(ls) && n <= |ls|
    ensures Ranked(Order(ls, n))
  {
    if n > 0 {
      OrderRanked(ls, n - 1);
      var top := Drain(ls[n - 1]);
      DrainNonIncreasing(ls[n - 1]);
      forall i | 0 <= i < |top| ensures top[i].prio == n - 1 {
        DrainMembers(ls[n - 1], top[i]);
        assert LevelOk(ls[n - 1], n - 1);
      }
      var below := Order(ls, n - 1);
      forall j | 0 <= j < |below| ensures below[j].prio < n - 1 {
        OrderMembers(ls, n - 1, below[j]);
      }
    }
  }

  // Levels above the one that changes contribute nothing, or the same.
  lemma {:induction false} OrderSame(ls: Levels, ls': Levels, n: nat)
    requires n <= |ls| && n <= |ls'| && forall l :: 0 <= l < n ==> ls[l] == ls'[l]
    ensures Order(ls, n) == Order(ls', n)
  {
    if n > 0 { OrderSame(ls, ls', n - 1); }
  }

  lemma {:induction false} OrderEmptyAbove(ls: Levels, l: nat, n: nat)
    requires l <= n <= |ls| && forall k :: l <= k < n ==> ls[k] == []
    ensures Order(ls, n) == Order(ls, l)
  {
    if l < n { OrderEmptyAbove(ls, l, n - 1); }
  }

  lemma GotWellPlaced(ls: Levels)
    requires WellPlaced(ls)
    ensures WellPlaced(Got(ls).1)
  {
    var top := TopLevel(ls, |ls|);
    if top.Some? {
      assert LevelOk(ls[top.value], top.value);
      assert LevelOk(Rest(ls[top.value]), top.value);
    }
  }

  lemma GotFromLevel(ls: Levels, l: nat)
    requires l < |ls| && ls[l] != [] && forall k :: l < k < |ls| ==> ls[k] == []
    ensures Order(ls, |ls|) == [ls[l][Best(ls[l])]] + Order(ls[l := Rest(ls[l])], |ls|)
  {
    var ls' := ls[l := Rest(ls[l])];
    OrderEmptyAbove(ls, l + 1, |ls|);
    OrderEmptyAbove(ls', l + 1, |ls|);
    OrderSame(ls, ls', l);
    DrainStep(ls[l], Order(ls, l));
  }

  lemma DrainStep(q: seq<Pcb>, t: seq<Pcb>)
    requires q != []
    ensures Drain(q) + t == [q[Best(q)]] + (Drain(Rest(q)) + t)
  {
  }

  // get_proc takes the head of the list.
  lemma GotIsHead(ls: Levels)
    requires WellPlaced(ls)
    ensures Got(ls).0.None? <==> Order(ls, |ls|) == []
    ensures Got(ls).0.None? ==> Got(ls).1 == ls
    ensures Got(ls).0.Some? ==> Order(ls, |ls|) == [Got(ls).0.value] + Order(Got(ls).1, |ls|)
    ensures WellPlaced(Got(ls).1)
  {
    GotWellPlaced(ls);
    var top := TopLevel(ls, |ls|);
    if top.None? {
      OrderEmptyAbove(ls, 0, |ls|);
    } else {
      GotFromLevel(ls, top.value);
    }
  }

  /* ---------- Enqueuing is insertion behind equals ---------- */

  lemma {:induction false} InsertedMembers(s: seq<Pcb>, p: Pcb, x: Pcb)
    ensures x in Inserted(s, p) <==> x in s || x == p
  {
    if s != [] {
      InsertedMembers(s[1..], p, x);
      assert s == [s[0]] + s[1..];
    }
  }

  lemma {:induction false} InsertedBehind(s: seq<Pcb>, t: seq<Pcb>, p: Pcb)
    requires forall i :: 0 <= i < |s| ==> !Outranks(p, s[i])
    ensures Inserted(s + t, p) == s + Inserted(t, p)
  {
    if s == [] {
      assert s + t == t;
    } else {
      InsertedBehind(s[1..], t, p);
      assert (s + t)[1..] == s[1..] + t;
    }
  }

  lemma {:induction false} InsertedBefore(s: seq<Pcb>, t: seq<Pcb>, p: Pcb)
    requires forall i :: 0 <= i < |t| ==> Outranks(p, t[i])
    ensures Inserted(s + t, p) == Inserted(s, p) + t
  {
    if s == [] {
      assert s + t == t;
    } else {
      InsertedBefore(s[1..], t, p);
      assert (s + t)[1..] == s[1..] + t;
    }
  }

  lemma {:induction false} InsertedClasses(s: seq<Pcb>, p: Pcb, k: nat)
    requires NonIncreasing(s) && forall i :: 0 <= i < |s| ==> s[i].prio == p.prio
    ensures OfPriority(Inserted(s, p), k) == OfPriority(s, k) + OfPriority([p], k)
  {
    if s == [] {
      OfPriorityOne(p, k);
    } else if Outranks(p, s[0]) {
      OfPriorityConcat([p], s, k);
      OfPriorityOne(p, k);
      if k == p.priority { OfPriorityNone(s, k); }
    } else {
      InsertedClasses(s[1..], p, k);
      InsertedCons(s, p, k);
      Reassociate(OfPriority([s[0]], k), OfPriority(s[1..], k), OfPriority([p], k));
    }
  }

  lemma Reassociate(a: seq<Pcb>, b: seq<Pcb>, c: seq<Pcb>)
    ensures a + (b + c) == a + b + c
  {
  }

  lemma InsertedCons(s: seq<Pcb>, p: Pcb, k: nat)
    requires s != [] && !Outranks(p, s[0])
    ensures OfPriority(Inserted(s, p), k) == OfPriority([s[0]], k) + OfPriority(Inserted(s[1..], p), k)
    ensures OfPriority(s, k) == OfPriority([s[0]], k) + OfPriority(s[1..], k)
  {
    OfPriorityConcat([s[0]], Inserted(s[1..], p), k);
    assert s == [s[0]] + s[1..];
    OfPriorityConcat([s[0]], s[1..], k);
  }

  lemma {:induction false} InsertedNonIncreasing(s: seq<Pcb>, p: Pcb)
    requires NonIncreasing(s) && forall i :: 0 <= i < |s| ==> s[i].prio == p.prio
    ensures NonIncreasing(Inserted(s, p))
  {
    if s != [] && !Outranks(p, s[0]) {
      InsertedNonIncreasing(s[1..], p);
      var t := Inserted(s[1..], p);
      forall j | 0 <= j < |t| ensures t[j].priority <= s[0].priority {
        InsertedMembers(s[1..], p, t[j]);
      }
    }
  }

  lemma DrainOfEnqueued(q: seq<Pcb>, p: Pcb)
    requires LevelOk(q, p.prio)
    ensures Drain(q + [p]) == Inserted(Drain(q), p)
  {
    var r := Inserted(Drain(q), p);
    forall i | 0 <= i < |Drain(q)| ensures Drain(q)[i].prio == p.prio {
      DrainMembers(q, Drain(q)[i]);
    }
    DrainNonIncreasing(q);
    InsertedNonIncreasing(Drain(q), p);
    forall k: nat ensures OfPriority(r, k) == OfPriority(q + [p], k) {
      InsertedClasses(Drain(q), p, k);
      DrainClasses(q, k);
      OfPriorityConcat(q, [p], k);
    }
    DrainIsTheStableSort(q + [p], r);
  }

  lemma {:induction false} OrderOfPut(ls: Levels, p: Pcb, n: nat)
    requires WellPlaced(ls) && p.prio < n <= |ls| && |ls[p.prio]| < MAX_QUEUE_SIZE
    ensures Order(Put(ls, p), n) == Inserted(Order(ls, n), p)
  {
    var ls' := Put(ls, p);
    if p.prio == n - 1 {
      OrderSame(ls, ls', n - 1);
      assert LevelOk(ls[n - 1], n - 1);
      DrainOfEnqueued(ls[n - 1], p);
      var below := Order(ls, n - 1);
      forall j | 0 <= j < |below| ensures Outranks(p, below[j]) {
        OrderMembers(ls, n - 1, below[j]);
      }
      InsertedBefore(Drain(ls[n - 1]), Order(ls, n - 1), p);
    } else {
      OrderOfPut(ls, p, n - 1);
      var top := Drain(ls[n - 1]);
      forall i | 0 <= i < |top| ensures !Outranks(p, top[i]) {
        DrainMembers(ls[n - 1], top[i]);
        assert LevelOk(ls[n - 1], n - 1);
      }
      InsertedBehind(Drain(ls[n - 1]), Order(ls, n - 1), p);
    }
  }

  // put_proc inserts into the list; a full level drops the process.
  lemma PutIsInsertion(ls: Levels, p: Pcb)
    requires WellPlaced(ls) && p.prio < MAX_PRIO
    ensures WellPlaced(Put(ls, p))
    ensures Order(Put(ls, p), |ls|) ==
      if |ls[p.prio]| < MAX_QUEUE_SIZE then Inserted(Order(ls, |ls|), p) else Order(ls, |ls|)
  {
    assert LevelOk(ls[p.prio], p.prio);
    if |ls[p.prio]| < MAX_QUEUE_SIZE {
      OrderOfPut(ls, p, |ls|);
    } else {
      assert Put(ls, p) == ls;
    }
  }

  /* ---------- How many are ahead of an entry ---------- */

  // Entries of q[..n] that dequeue takes before entry i.
  function AheadInLevel(q: seq<Pcb>, i: nat, n: nat): nat
    requires i < |q| && n <= |q|
  {
    if n == 0 then 0
    else
      var here := q[n - 1].priority > q[i].priority || (q[n - 1].priority == q[i].priority && n - 1 < i);
      AheadInLevel(q, i, n - 1) + (if here then 1 else 0)
  }

  function Above(ls: Levels, l: nat, n: nat): nat
    requires l < n <= |ls|
  {
    if n == l + 1 then 0 else |ls[n - 1]| + Above(ls, l, n - 1)
  }

  // Entries of the n lowest levels dispatched before entry i of level l.
  function Ahead(ls: Levels, l: nat, i: nat, n: nat): nat
    requires l < n <= |ls| && i < |ls[l]|
  {
    Above(ls, l, n) + AheadInLevel(ls[l], i, |ls[l]|)
  }

  // Taking out an entry that is ahead of entry i.
  lemma {:induction false} AheadWithout(q: seq<Pcb>, b: nat, i: nat, n: nat)
    requires i < |q| && b < |q| && b != i && n < |q|
    requires q[b].priority > q[i].priority || (q[b].priority == q[i].priority && b < i)
    ensures var i' := if i < b then i else i - 1;
      Without(q, b)[i'] == q[i] &&
      AheadInLevel(Without(q, b), i', n)
        == if n <= b then AheadInLevel(q, i, n) else AheadInLevel(q, i, n + 1) - 1
  {
    if n > 0 {
      AheadWithout(q, b, i, n - 1);
      if n == b + 1 {
        assert AheadInLevel(q, i, n) == AheadInLevel(q, i, b) + 1;
      }
    }
  }

  lemma {:induction false} NoneAheadOfBest(q: seq<Pcb>, n: nat)
    requires q != [] && n <= |q|
    ensures AheadInLevel(q, Best(q), n) == 0
  {
    if n > 0 { NoneAheadOfBest(q, n - 1); }
  }

  function AfterRemoval(b: nat, i: nat): int { if i < b then i else i - 1 }

  lemma AheadInRest(q: seq<Pcb>, i: nat)
    requires i < |q| && i != Best(q)
    ensures var i' := AfterRemoval(Best(q), i);
      && 0 <= i' < |Rest(q)| && Rest(q)[i'] == q[i]
      && AheadInLevel(q, i, |q|) == AheadInLevel(Rest(q), i', |Rest(q)|) + 1
  {
    AheadWithout(q, Best(q), i, |q| - 1);
  }

  lemma {:induction false} DrainPosition(q: seq<Pcb>, i: nat)
    requires i < |q|
    ensures AheadInLevel(q, i, |q|) < |Drain(q)|
    ensures Drain(q)[AheadInLevel(q, i, |q|)] == q[i]
    decreases |q|
  {
    if i == Best(q) {
      NoneAheadOfBest(q, |q|);
    } else {
      AheadInRest(q, i);
      DrainPosition(Rest(q), AfterRemoval(Best(q), i));
      assert Drain(q) == [q[Best(q)]] + Drain(Rest(q));
    }
  }

  // The position of an entry in the dispatch order is the number of entries of
  // higher prio, of higher priority in its level, and of equal priority before it.
  lemma {:induction false} OrderPosition(ls: Levels, l: nat, i: nat, n: nat)
    requires l < n <= |ls| && i < |ls[l]|
    ensures Ahead(ls, l, i, n) < |Order(ls, n)|
    ensures Order(ls, n)[Ahead(ls, l, i, n)] == ls[l][i]
    decreases n
  {
    if n == l + 1 {
      DrainPosition(ls[l], i);
    } else {
      OrderPosition(ls, l, i, n - 1);
      DrainLength(ls[n - 1]);
    }
  }

  // So get_proc returns the entry with nobody ahead of it: the first enqueued
  // among those of highest priority in the highest non-empty level.
  lemma GotHasNobodyAhead(ls: Levels, l: nat, i: nat)
    requires WellPlaced(ls) && l < |ls| && i < |ls[l]| && Ahead(ls, l, i, |ls|) == 0
    ensures Got(ls).0 == Some(ls[l][i])
  {
    OrderPosition(ls, l, i, |ls|);
    GotIsHead(ls);
  }

  lemma {:induction false} NoneAbove(ls: Levels, l: nat, n: nat)
    requires l < n <= |ls| && forall k :: l < k < n ==> ls[k] == []
    ensures Above(ls, l, n) == 0
  {
    if n > l + 1 { NoneAbove(ls, l, n - 1); }
  }

  lemma GotIsMaximum(ls: Levels)
    requires WellPlaced(ls) && Got(ls).0.Some?
    ensures var p := Got(ls).0.value;
      && p.prio < |ls| && ls[p.prio] != []
      && p == ls[p.prio][Best(ls[p.prio])]
      && Ahead(ls, p.prio, Best(ls[p.prio]), |ls|) == 0
      && forall l, i :: 0 <= l < |ls| && 0 <= i < |ls[l]| ==> !Outranks(ls[l][i], p)
  {
    var l := TopLevel(ls, |ls|).value;
    assert forall k :: 0 <= k < |ls| ==> LevelOk(ls[k], k);
    NoneAbove(ls, l, |ls|);
    NoneAheadOfBest(ls[l], |ls[l]|);
  }

  /* ---------- Bounded bypass ---------- */

  datatype Op = Get | Arrive(p: Pcb)

  function Perform(ls: Levels, op: Op): Levels
    requires op.Arrive? ==> op.p.prio < |ls|
  {
    match op
    case Get => Got(ls).1
    case Arrive(p) => Put(ls, p)
  }

  ghost predicate Valid(ops: seq<Op>) {
    forall k :: 0 <= k < |ops| && ops[k].Arrive? ==> ops[k].p.prio < MAX_PRIO
  }

  function PerformAll(ls: Levels, ops: seq<Op>): (r: Levels)
    requires |ls| == MAX_PRIO && Valid(ops)
    ensures |r| == MAX_PRIO
  {
    if ops == [] then ls else Perform(PerformAll(ls, ops[..|ops| - 1]), ops[|ops| - 1])
  }

  function Gets(ops: seq<Op>): nat {
    if ops == [] then 0 else Gets(ops[..|ops| - 1]) + if ops[|ops| - 1].Get? then 1 else 0
  }

  lemma {:induction false} InsertedKeeps(s: seq<Pcb>, p: Pcb, k: nat)
    requires k < |s| && Ranked(s) && !Outranks(p, s[k])
    ensures k < |Inserted(s, p)| && Inserted(s, p)[k] == s[k]
  {
    if k > 0 {
      assert !Outranks(s[k], s[0]);
      InsertedKeeps(s[1..], p, k - 1);
    }
  }

  lemma OpMovesUp(ls: Levels, op: Op, k: nat, x: Pcb)
    requires WellPlaced(ls) && k < |Order(ls, |ls|)| && Order(ls, |ls|)[k] == x
    requires op.Arrive? ==> op.p.prio < MAX_PRIO && !Outranks(op.p, x)
    requires op.Get? ==> k > 0
    ensures var r, k' := Perform(ls, op), if op.Get? then k - 1 else k;
      WellPlaced(r) && k' < |Order(r, |r|)| && Order(r, |r|)[k'] == x
  {
    match op
    case Get => GotIsHead(ls);
    case Arrive(p) =>
      PutIsInsertion(ls, p);
      OrderRanked(ls, |ls|);
      if |ls[p.prio]| < MAX_QUEUE_SIZE { InsertedKeeps(Order(ls, |ls|), p, k); }
  }

  // Whatever arrives without strictly outranking it, an entry with k entries
  // ahead of it moves up by one with every dequeue ...
  lemma {:induction false} MovesUp(ls: Levels, ops: seq<Op>, k: nat, x: Pcb)
    requires WellPlaced(ls) && Valid(ops) && k < |Order(ls, |ls|)| && Order(ls, |ls|)[k] == x
    requires forall m :: 0 <= m < |ops| && ops[m].Arrive? ==> !Outranks(ops[m].p, x)
    requires Gets(ops) <= k
    ensures var r := PerformAll(ls, ops);
      && WellPlaced(r)
      && k - Gets(ops) < |Order(r, |r|)|
      && Order(r, |r|)[k - Gets(ops)] == x
  {
    if ops != [] {
      var pre := ops[..|ops| - 1];
      MovesUp(ls, pre, k, x);
      OpMovesUp(PerformAll(ls, pre), ops[|ops| - 1], k - Gets(pre), x);
    }
  }

  // ... so it is returned by exactly the dequeue number Ahead + 1.
  lemma BoundedBypass(ls: Levels, l: nat, i: nat, ops: seq<Op>)
    requires WellPlaced(ls) && l < |ls| && i < |ls[l]| && Valid(ops)
    requires forall m :: 0 <= m < |ops| && ops[m].Arrive? ==> !Outranks(ops[m].p, ls[l][i])
    requires Gets(ops) == Ahead(ls, l, i, |ls|)
    ensures Got(PerformAll(ls, ops)).0 == Some(ls[l][i])
  {
    OrderPosition(ls, l, i, |ls|);
    MovesUp(ls, ops, Ahead(ls, l, i, |ls|), ls[l][i]);
    GotIsHead(PerformAll(ls, ops));
  }
}

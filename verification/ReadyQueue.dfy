/** The bounded priority queue of src/queue.c: what enqueue and dequeue do to the
    sequence of queued processes, and what repeated dequeuing yields. */
module ReadyQueue {

  // The fields of pcb_t that are fixed once a process is loaded; pids are
  // distinct (src/loader.c), so the value stands for the pointer.
  datatype Pcb = Pcb(pid: nat, priority: nat, prio: nat, size: nat, path: string)

  const MAX_QUEUE_SIZE: nat := 10

  ghost predicate FirstMax(q: seq<Pcb>, b: nat) {
    && b < |q|
    && (forall j :: 0 <= j < |q| ==> q[j].priority <= q[b].priority)
    && (forall j :: 0 <= j < b ==> q[j].priority < q[b].priority)
  }

  // The index that the scan of dequeue ends with.
  function Best(q: seq<Pcb>): (b: nat)
    requires q != []
    ensures FirstMax(q, b)
  {
    if |q| == 1 then 0
    else
      var n := |q| - 1;
      var b := Best(q[..n]);
      assert q[..n][b] == q[b];
      assert forall j :: 0 <= j < n ==> q[..n][j] == q[j];
      if q[n].priority > q[b].priority then n else b
  }

  lemma FirstMaxUnique(q: seq<Pcb>, b: nat, c: nat)
    requires FirstMax(q, b) && FirstMax(q, c)
    ensures b == c
  {
    assert q[b].priority <= q[c].priority <= q[b].priority;
  }

  function Without(q: seq<Pcb>, b: nat): seq<Pcb>
    requires b < |q|
  {
    q[..b] + q[b + 1..]
  }

  function Rest(q: seq<Pcb>): seq<Pcb>
    requires q != []
  {
    Without(q, Best(q))
  }

  // A full queue ignores the request.
  function Enqueued(q: seq<Pcb>, p: Pcb): seq<Pcb> {
    if |q| >= MAX_QUEUE_SIZE then q else q + [p]
  }

  // What dequeuing until the queue is empty yields.
  function Drain(q: seq<Pcb>): seq<Pcb>
    decreases |q|
  {
    if q == [] then [] else [q[Best(q)]] + Drain(Rest(q))
  }

  /* ---------- Draining is a stable sort ---------- */

  ghost predicate NonIncreasing(s: seq<Pcb>) {
    forall i, j :: 0 <= i < j < |s| ==> s[i].priority >= s[j].priority
  }

  // The processes of one priority, in order.
  function OfPriority(s: seq<Pcb>, k: nat): seq<Pcb> {
    if s == [] then []
    else OfPriority(s[..|s| - 1], k) + (if s[|s| - 1].priority == k then [s[|s| - 1]] else [])
  }

  // r is the stable sort of s: in non-increasing priority, equal priorities in
  // the order in which s has them.
  ghost predicate StableSortOf(r: seq<Pcb>, s: seq<Pcb>) {
    NonIncreasing(r) && forall k: nat :: OfPriority(r, k) == OfPriority(s, k)
  }

  lemma {:induction false} OfPriorityConcat(s: seq<Pcb>, t: seq<Pcb>, k: nat)
    ensures OfPriority(s + t, k) == OfPriority(s, k) + OfPriority(t, k)
    decreases |t|
  {
    if t == [] {
      assert s + t == s;
    } else {
      var m := |t| - 1;
      assert (s + t)[..|s + t| - 1] == s + t[..m];
      OfPriorityConcat(s, t[..m], k);
    }
  }

  lemma {:induction false} OfPriorityNone(s: seq<Pcb>, k: nat)
    requires forall j :: 0 <= j < |s| ==> s[j].priority != k
    ensures OfPriority(s, k) == []
  {
    if s != [] { OfPriorityNone(s[..|s| - 1], k); }
  }

  lemma OfPriorityOne(p: Pcb, k: nat)
    ensures OfPriority([p], k) == if p.priority == k then [p] else []
  {
  }

  // Membership is decided by the priority classes.
  lemma {:induction false} InOfPriority(s: seq<Pcb>, p: Pcb)
    ensures p in s <==> p in OfPriority(s, p.priority)
  {
    if s != [] {
      var m := |s| - 1;
      InOfPriority(s[..m], p);
      assert s == s[..m] + [s[m]];
    }
  }

  lemma OfPriorityMiddle(s: seq<Pcb>, p: Pcb, t: seq<Pcb>, k: nat)
    ensures OfPriority(s + [p] + t, k) == OfPriority(s, k) + OfPriority([p], k) + OfPriority(t, k)
  {
    OfPriorityConcat(s + [p], t, k);
    OfPriorityConcat(s, [p], k);
  }

  lemma SwapWithEmpty(a: seq<Pcb>, b: seq<Pcb>, c: seq<Pcb>)
    requires a == [] || b == []
    ensures a + b + c == b + (a + c)
  {
  }

  lemma OfPriorityMoved(s: seq<Pcb>, p: Pcb, t: seq<Pcb>, k: nat)
    requires forall j :: 0 <= j < |s| ==> s[j].priority != p.priority
    ensures OfPriority(s + [p] + t, k) == OfPriority([p], k) + OfPriority(s + t, k)
  {
    OfPriorityMiddle(s, p, t, k);
    OfPriorityConcat(s, t, k);
    if k == p.priority { OfPriorityNone(s, k); } else { OfPriorityOne(p, k); }
    SwapWithEmpty(OfPriority(s, k), OfPriority([p], k), OfPriority(t, k));
  }

  // Taking the first maximum out: it heads its own class and is in no other.
  lemma RestClasses(q: seq<Pcb>, k: nat)
    requires q != []
    ensures OfPriority(q, k) == OfPriority([q[Best(q)]], k) + OfPriority(Rest(q), k)
  {
    var b := Best(q);
    assert q == q[..b] + [q[b]] + q[b + 1..];
    OfPriorityMoved(q[..b], q[b], q[b + 1..], k);
  }

  lemma {:induction false} DrainClasses(q: seq<Pcb>, k: nat)
    ensures OfPriority(Drain(q), k) == OfPriority(q, k)
    decreases |q|
  {
    if q != [] {
      RestClasses(q, k);
      DrainClasses(Rest(q), k);
      OfPriorityConcat([q[Best(q)]], Drain(Rest(q)), k);
    }
  }

  lemma DrainMembers(q: seq<Pcb>, p: Pcb)
    ensures p in Drain(q) <==> p in q
  {
    DrainClasses(q, p.priority);
    InOfPriority(q, p);
    InOfPriority(Drain(q), p);
  }

  lemma {:induction false} DrainNonIncreasing(q: seq<Pcb>)
    ensures NonIncreasing(Drain(q))
    decreases |q|
  {
    if q != [] {
      DrainNonIncreasing(Rest(q));
      forall j | 0 <= j < |Drain(Rest(q))| ensures Drain(Rest(q))[j].priority <= q[Best(q)].priority {
        DrainMembers(Rest(q), Drain(Rest(q))[j]);
      }
    }
  }

  lemma DrainIsStableSort(q: seq<Pcb>)
    ensures StableSortOf(Drain(q), q)
  {
    DrainNonIncreasing(q);
    forall k: nat ensures OfPriority(Drain(q), k) == OfPriority(q, k) {
      DrainClasses(q, k);
    }
  }

  lemma {:induction false} DrainLength(q: seq<Pcb>)
    ensures |Drain(q)| == |q|
    decreases |q|
  {
    if q != [] { DrainLength(Rest(q)); }
  }

  lemma WithoutPermutes(q: seq<Pcb>, b: nat)
    requires b < |q|
    ensures multiset(q) == multiset{q[b]} + multiset(Without(q, b))
  {
    assert q == q[..b] + [q[b]] + q[b + 1..];
  }

  lemma {:induction false} DrainPermutes(q: seq<Pcb>)
    ensures multiset(Drain(q)) == multiset(q)
    decreases |q|
  {
    if q != [] {
      DrainPermutes(Rest(q));
      WithoutPermutes(q, Best(q));
      assert Drain(q) == [q[Best(q)]] + Drain(Rest(q));
    }
  }

  lemma HeadBounds(r: seq<Pcb>, p: Pcb)
    requires NonIncreasing(r) && p in r
    ensures r != [] && p.priority <= r[0].priority
  {
  }

  // The head of a stable sort is the first process of the highest class.
  lemma HeadOfStable(r: seq<Pcb>, t: seq<Pcb>)
    requires r != [] && NonIncreasing(r) && NonIncreasing(t)
    requires forall k: nat :: OfPriority(r, k) == OfPriority(t, k)
    ensures t != [] && t[0] == r[0]
  {
    InOfPriority(r, r[0]);
    InOfPriority(t, r[0]);
    HeadBounds(t, r[0]);
    InOfPriority(t, t[0]);
    InOfPriority(r, t[0]);
    HeadBounds(r, t[0]);
    HeadOfClass(r);
    HeadOfClass(t);
  }

  lemma HeadOfClass(r: seq<Pcb>)
    requires r != []
    ensures OfPriority(r, r[0].priority) != [] && OfPriority(r, r[0].priority)[0] == r[0]
  {
    assert r == [r[0]] + r[1..];
    OfPriorityConcat([r[0]], r[1..], r[0].priority);
    OfPriorityOne(r[0], r[0].priority);
  }

  // There is only one stable sort.
  lemma {:induction false} StableUnique(r: seq<Pcb>, t: seq<Pcb>)
    requires NonIncreasing(r) && NonIncreasing(t)
    requires forall k: nat :: OfPriority(r, k) == OfPriority(t, k)
    ensures r == t
    decreases |r|
  {
    if r == [] {
      if t != [] { HeadOfStable(t, r); }
    } else {
      HeadOfStable(r, t);
      forall k: nat ensures OfPriority(r[1..], k) == OfPriority(t[1..], k) {
        assert r == [r[0]] + r[1..] && t == [t[0]] + t[1..];
        OfPriorityConcat([r[0]], r[1..], k);
        OfPriorityConcat([t[0]], t[1..], k);
        var h := OfPriority([r[0]], k);
        assert OfPriority(r[1..], k) == (h + OfPriority(r[1..], k))[|h|..];
        assert OfPriority(t[1..], k) == (h + OfPriority(t[1..], k))[|h|..];
      }
      StableUnique(r[1..], t[1..]);
      assert r == [r[0]] + r[1..] && t == [t[0]] + t[1..];
    }
  }

  lemma DrainIsTheStableSort(q: seq<Pcb>, r: seq<Pcb>)
    ensures r == Drain(q) <==> StableSortOf(r, q)
  {
    DrainIsStableSort(q);
    if StableSortOf(r, q) {
      forall k: nat ensures OfPriority(r, k) == OfPriority(Drain(q), k) {
        DrainClasses(q, k);
      }
      StableUnique(r, Drain(q));
    }
  }

  lemma DrainOfSorted(s: seq<Pcb>)
    requires NonIncreasing(s)
    ensures Drain(s) == s
  {
    DrainIsTheStableSort(s, s);
  }
}

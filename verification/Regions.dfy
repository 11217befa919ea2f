/** First-fit allocation from a list of free regions, as src/libmem.c does it, and
    what it conserves. */
module Regions {
  const ULONG: nat := 0x1_0000_0000_0000_0000  // unsigned long
  const UINT: nat := 0x1_0000_0000

  type Address = x: nat | x < ULONG

  // The addresses from start up to, not including, end.
  datatype Region = Region(start: Address, end: Address)

  const NO_REGION := Region(ULONG - 1, ULONG - 1)  // -1 stored in both fields

  function Wrap(x: int): Address { x % ULONG }

  // unsigned long to int
  function ToInt(x: Address): int { if x % UINT >= 0x8000_0000 then x % UINT - UINT else x % UINT }

  // int avail = rg_end - rg_start
  function Avail(r: Region): int { ToInt(Wrap(r.end - r.start)) }

  /* ---------- The functions of the source ---------- */

  // The first region at least that large, from i on.
  function FirstFit(rs: seq<Region>, size: int, i: nat): (k: nat)
    requires i <= |rs|
    ensures i <= k <= |rs|
    ensures k < |rs| ==> Avail(rs[k]) >= size
    ensures forall j :: i <= j < k ==> Avail(rs[j]) < size
    decreases |rs| - i
  {
    if i == |rs| || Avail(rs[i]) >= size then i else FirstFit(rs, size, i + 1)
  }

  function Front(r: Region, size: int): Region { Region(r.start, Wrap(r.start + size)) }

  // The list after the front of its kth region has been taken.
  function Cut(rs: seq<Region>, k: nat, size: int): seq<Region>
    requires k < |rs|
  {
    var start := Front(rs[k], size).end;
    if start >= rs[k].end then rs[..k] + rs[k + 1..] else rs[k := Region(start, rs[k].end)]
  }

  // get_free_vmrg_area: the status, the region found, the list that remains. When
  // nothing fits the status is 0 all the same, and the region is NO_REGION; only an
  // empty list gives -1.
  function GetFree(rs: seq<Region>, size: int, newrg: Region): (int, Region, seq<Region>) {
    var k := FirstFit(rs, size, 0);
    if rs == [] then (-1, newrg, rs)
    else if k == |rs| then (0, NO_REGION, rs)
    else (0, Front(rs[k], size), Cut(rs, k, size))
  }

  // enlist_vm_freerg_list
  function Enlist(rs: seq<Region>, r: Region): (int, seq<Region>) {
    if r.start >= r.end then (-1, rs) else (0, [r] + rs)
  }

  // A region that is not empty becomes the head, and the status is 0; an empty one is
  // refused with -1.
  lemma EnlistMeaning(rs: seq<Region>, r: Region)
    ensures Enlist(rs, r).0 == if r.start < r.end then 0 else -1
    ensures Enlist(rs, r).0 == 0 ==>
      |Enlist(rs, r).1| == |rs| + 1 && Enlist(rs, r).1[0] == r && Enlist(rs, r).1[1..] == rs
    ensures Enlist(rs, r).0 == -1 ==> Enlist(rs, r).1 == rs
  {
  }

  /* ---------- One request ---------- */

  ghost predicate Proper(r: Region) { r.start <= r.end && r.end - r.start < 0x8000_0000 }

  ghost predicate AllOrdered(rs: seq<Region>) { forall k :: 0 <= k < |rs| ==> rs[k].start <= rs[k].end }

  ghost predicate AllProper(rs: seq<Region>) { forall k :: 0 <= k < |rs| ==> Proper(rs[k]) }

  // The available size is computed right exactly for regions below 2 GB.
  lemma AvailIsLength(r: Region)
    requires r.start <= r.end
    ensures Avail(r) == r.end - r.start <==> Proper(r)
  {
  }

  // In any region it is never too large.
  lemma AvailAtMostLength(r: Region)
    requires r.start <= r.end
    ensures Avail(r) <= r.end - r.start
  {
  }

  predicate In(x: nat, r: Region) { r.start <= x < r.end }

  // How many of the regions an address lies in.
  function Count(rs: seq<Region>, x: nat): nat {
    if rs == [] then 0 else (if In(x, rs[0]) then 1 else 0) + Count(rs[1..], x)
  }

  // Their total size.
  function Total(rs: seq<Region>): int {
    if rs == [] then 0 else rs[0].end - rs[0].start + Total(rs[1..])
  }

  lemma {:induction false} CountAt(rs: seq<Region>, k: nat, x: nat)
    requires k < |rs|
    ensures Count(rs, x) == Count(rs[..k], x) + (if In(x, rs[k]) then 1 else 0) + Count(rs[k + 1..], x)
    ensures Total(rs) == Total(rs[..k]) + (rs[k].end - rs[k].start) + Total(rs[k + 1..])
  {
    if k > 0 {
      CountAt(rs[1..], k - 1, x);
      assert rs[1..][..k - 1] == rs[..k][1..] && rs[1..][k..] == rs[k + 1..];
    }
  }

  lemma {:induction false} CountAppend(rs: seq<Region>, qs: seq<Region>, x: nat)
    ensures Count(rs + qs, x) == Count(rs, x) + Count(qs, x)
    ensures Total(rs + qs) == Total(rs) + Total(qs)
  {
    if rs == [] {
      assert rs + qs == qs;
    } else {
      CountAppend(rs[1..], qs, x);
      assert (rs + qs)[1..] == rs[1..] + qs;
    }
  }

  lemma CountCons(r: Region, rs: seq<Region>, x: nat)
    ensures Count([r] + rs, x) == (if In(x, r) then 1 else 0) + Count(rs, x)
    ensures Total([r] + rs) == r.end - r.start + Total(rs)
  {
  }

  // Of a request met by the kth region: the front goes, and what is behind it stays.
  lemma CutCount(rs: seq<Region>, k: nat, size: int, x: nat)
    requires k < |rs|
    ensures var mid := Front(rs[k], size).end;
      && Count(Cut(rs, k, size), x) == Count(rs, x) - (if In(x, rs[k]) then 1 else 0)
           + (if mid <= x < rs[k].end then 1 else 0)
      && Total(Cut(rs, k, size)) == Total(rs) - (rs[k].end - rs[k].start)
           + (if mid < rs[k].end then rs[k].end - mid else 0)
  {
    CountAt(rs, k, x);
    var cut := Cut(rs, k, size);
    if |cut| == |rs| {
      CountAt(cut, k, x);
    } else {
      CountAppend(rs[..k], rs[k + 1..], x);
    }
  }

  // A request that is met splits one region in two: the space of the list is that
  // of what is granted and what remains.
  lemma CutConserves(rs: seq<Region>, k: nat, size: nat, x: nat)
    requires k < |rs| && size <= rs[k].end - rs[k].start
    ensures Count(rs, x) == (if In(x, Front(rs[k], size)) then 1 else 0) + Count(Cut(rs, k, size), x)
    ensures Total(rs) == size + Total(Cut(rs, k, size))
    ensures Front(rs[k], size) == Region(rs[k].start, rs[k].start + size)
  {
    CutCount(rs, k, size, x);
  }

  // First fit, in full: the region is the front of the first one large enough, the
  // ones before it are untouched, and it leaves the list exactly when it is used up.
  lemma GetFreeTakesFirst(rs: seq<Region>, k: nat, size: nat, newrg: Region)
    requires AllProper(rs) && k < |rs| && rs[k].end - rs[k].start >= size
    requires forall j :: 0 <= j < k ==> rs[j].end - rs[j].start < size
    ensures var (code, got, rest) := GetFree(rs, size, newrg);
      && code == 0 && rs[k].start + size < ULONG && got == Region(rs[k].start, rs[k].start + size)
      && |rest| >= k && rest[..k] == rs[..k]
      && rest[k..] == (if rs[k].end - rs[k].start == size then []
                       else [Region(rs[k].start + size, rs[k].end)]) + rs[k + 1..]
  {
    var f := FirstFit(rs, size, 0);
    AvailIsLength(rs[k]);
    if f < |rs| { AvailIsLength(rs[f]); }
    CutShape(rs, k, size);
  }

  // When none is large enough, nothing changes.
  lemma GetFreeNothingFits(rs: seq<Region>, size: nat, newrg: Region)
    requires AllProper(rs) && forall k :: 0 <= k < |rs| ==> rs[k].end - rs[k].start < size
    ensures var (code, got, rest) := GetFree(rs, size, newrg);
      && rest == rs && code == (if rs == [] then -1 else 0)
      && (rs == [] ==> got == newrg) && (rs != [] ==> got.start == got.end == ULONG - 1)
  {
    var f := FirstFit(rs, size, 0);
    if f < |rs| { AvailIsLength(rs[f]); }
  }

  lemma CutShape(rs: seq<Region>, k: nat, size: nat)
    requires k < |rs| && Proper(rs[k]) && size <= rs[k].end - rs[k].start
    ensures |Cut(rs, k, size)| >= k && Cut(rs, k, size)[..k] == rs[..k]
    ensures Cut(rs, k, size)[k..] ==
      (if rs[k].end - rs[k].start == size then [] else [Region(rs[k].start + size, rs[k].end)]) + rs[k + 1..]
  {
  }

  ghost predicate Conserves(rs: seq<Region>, size: int, newrg: Region, x: nat) {
    var (_, got, rest) := GetFree(rs, size, newrg);
    Count(rs, x) == (if In(x, got) then 1 else 0) + Count(rest, x)
  }

  // What is conserved at an address depends on the region that meets the request.
  lemma ConservesAt(rs: seq<Region>, size: int, newrg: Region, x: nat)
    requires FirstFit(rs, size, 0) < |rs|
    ensures var r := rs[FirstFit(rs, size, 0)];
      var mid := Wrap(r.start + size);
      Conserves(rs, size, newrg, x) <==>
        (if In(x, r) then 1 else 0) == (if r.start <= x < mid then 1 else 0) + (if mid <= x < r.end then 1 else 0)
  {
    CutCount(rs, FirstFit(rs, size, 0), size, x);
  }

  // A request that is met, of any size, conserves the space at every address if and
  // only if what is granted ends within the region it is taken from.
  lemma ConservesIffWithin(rs: seq<Region>, size: int, newrg: Region)
    requires AllOrdered(rs) && FirstFit(rs, size, 0) < |rs|
    ensures var r := rs[FirstFit(rs, size, 0)];
      (forall x: nat :: Conserves(rs, size, newrg, x)) <==> r.start <= Wrap(r.start + size) <= r.end
  {
    var r := rs[FirstFit(rs, size, 0)];
    var mid := Wrap(r.start + size);
    if r.start <= mid <= r.end {
      forall x: nat ensures Conserves(rs, size, newrg, x) { ConservesAt(rs, size, newrg, x); }
    } else {
      var x: nat := if mid < r.start then mid else r.end;
      ConservesAt(rs, size, newrg, x);
      assert !Conserves(rs, size, newrg, x);
    }
  }

  // So it does for every size that is not negative, and among regions below 2 GB for
  // no other.
  lemma ConservesIffNonNegative(rs: seq<Region>, size: int, newrg: Region)
    requires AllOrdered(rs) && FirstFit(rs, size, 0) < |rs|
    requires size < 0 ==> AllProper(rs) && -0x8000_0000 <= size
    ensures (forall x: nat :: Conserves(rs, size, newrg, x)) <==> size >= 0
  {
    var r := rs[FirstFit(rs, size, 0)];
    AvailAtMostLength(r);
    if size < 0 { NegativeLeaves(r, size); }
    ConservesIffWithin(rs, size, newrg);
  }

  lemma NegativeLeaves(r: Region, size: int)
    requires Proper(r) && -0x8000_0000 <= size < 0
    ensures !(r.start <= Wrap(r.start + size) <= r.end)
  {
    if r.start + size < 0 { assert Wrap(r.start + size) == r.start + size + ULONG; }
  }

  // For example: 5 to 9 were not free before.
  lemma NegativeSizeReachesBelow()
    ensures GetFree([Region(10, 20)], -5, NO_REGION).2 == [Region(5, 20)]
  {
    assert Cut([Region(10, 20)], 0, -5) == [Region(5, 20)];
  }

  /* ---------- Whole runs ---------- */

  datatype State = State(free: seq<Region>, granted: seq<Region>)

  // Insert brings in new space; Release puts the kth granted region back.
  datatype Op = Request(size: nat) | Insert(r: Region) | Release(k: nat)

  function Apply(s: State, op: Op): State {
    match op
    case Request(size) =>
      if FirstFit(s.free, size, 0) == |s.free| then s.(free := GetFree(s.free, size, NO_REGION).2)
      else State(GetFree(s.free, size, NO_REGION).2, [GetFree(s.free, size, NO_REGION).1] + s.granted)
    case Insert(r) => s.(free := Enlist(s.free, r).1)
    case Release(k) =>
      if k >= |s.granted| then s
      else State(Enlist(s.free, s.granted[k]).1, s.granted[..k] + s.granted[k + 1..])
  }

  function Run(s: State, ops: seq<Op>): State {
    if ops == [] then s else Apply(Run(s, ops[..|ops| - 1]), ops[|ops| - 1])
  }

  // The regions that were inserted.
  function Inserted(ops: seq<Op>): seq<Region> {
    if ops == [] then []
    else
      var last := ops[|ops| - 1];
      if last.Insert? && last.r.start < last.r.end then [last.r] + Inserted(ops[..|ops| - 1])
      else Inserted(ops[..|ops| - 1])
  }

  ghost predicate AllFine(s: State) { AllOrdered(s.free) && AllOrdered(s.granted) }

  function Cover(s: State, x: nat): nat { Count(s.free, x) + Count(s.granted, x) }

  function Space(s: State): int { Total(s.free) + Total(s.granted) }

  lemma RequestStep(s: State, size: nat, x: nat)
    requires AllFine(s)
    ensures var t := Apply(s, Request(size)); AllFine(t) && Cover(t, x) == Cover(s, x) && Space(t) == Space(s)
  {
    var k := FirstFit(s.free, size, 0);
    if k < |s.free| {
      AvailAtMostLength(s.free[k]);
      CutConserves(s.free, k, size, x);
      CountCons(Front(s.free[k], size), s.granted, x);
    }
  }

  lemma InsertStep(s: State, r: Region, x: nat)
    requires AllFine(s)
    ensures var t := Apply(s, Insert(r));
      && AllFine(t)
      && Cover(t, x) == Cover(s, x) + (if In(x, r) then 1 else 0)
      && Space(t) == Space(s) + (if r.start < r.end then r.end - r.start else 0)
  {
  }

  lemma ReleaseStep(s: State, k: nat, x: nat)
    requires AllFine(s)
    ensures var t := Apply(s, Release(k)); AllFine(t) && Cover(t, x) == Cover(s, x) && Space(t) == Space(s)
  {
    if k < |s.granted| {
      CountAt(s.granted, k, x);
      CountAppend(s.granted[..k], s.granted[k + 1..], x);
      CountCons(s.granted[k], s.free, x);
    }
  }

  // Over any run of requests, insertions and releases, what is free and what is
  // granted make up exactly what was there at first and what was inserted: every
  // address counts as often, and the sizes sum up.
  lemma {:induction false} RunConserves(s: State, ops: seq<Op>, x: nat)
    requires AllFine(s)
    ensures AllFine(Run(s, ops))
    ensures Cover(Run(s, ops), x) == Cover(s, x) + Count(Inserted(ops), x)
    ensures Space(Run(s, ops)) == Space(s) + Total(Inserted(ops))
  {
    if ops != [] {
      var before, last := ops[..|ops| - 1], ops[|ops| - 1];
      if last.Insert? { CountCons(last.r, Inserted(before), x); }
      RunConserves(s, before, x);
      if last.Request? {
        RequestStep(Run(s, before), last.size, x);
      } else if last.Insert? {
        InsertStep(Run(s, before), last.r, x);
      } else {
        ReleaseStep(Run(s, before), last.k, x);
      }
    }
  }

  // No address is in two of the regions.
  ghost predicate Apart(rs: seq<Region>) {
    forall j, k, x :: 0 <= j < k < |rs| && In(x, rs[j]) ==> !In(x, rs[k])
  }

  lemma {:induction false} CountPositive(rs: seq<Region>, k: nat, x: nat)
    requires k < |rs| && In(x, rs[k])
    ensures Count(rs, x) >= 1
  {
    if k > 0 { CountPositive(rs[1..], k - 1, x); }
  }

  lemma {:induction false} ApartCount(rs: seq<Region>, x: nat)
    requires Apart(rs)
    ensures Count(rs, x) <= 1
  {
    if rs != [] {
      ApartCount(rs[1..], x);
      if In(x, rs[0]) { NoneCount(rs[1..], x); }
    }
  }

  lemma {:induction false} NoneCount(rs: seq<Region>, x: nat)
    requires forall k :: 0 <= k < |rs| ==> !In(x, rs[k])
    ensures Count(rs, x) == 0
  {
    if rs != [] { NoneCount(rs[1..], x); }
  }

  lemma CountApart(rs: seq<Region>, x: nat, j: nat, k: nat)
    requires j < k < |rs| && In(x, rs[j]) && In(x, rs[k])
    ensures Count(rs, x) >= 2
  {
    CountAt(rs, j, x);
    CountPositive(rs[j + 1..], k - j - 1, x);
  }

  // So if the regions there at first and those inserted are disjoint, those granted
  // and those still free are disjoint at the end of every run.
  lemma RunStaysDisjoint(free: seq<Region>, ops: seq<Op>)
    requires AllOrdered(free) && Apart(free + Inserted(ops))
    ensures var t := Run(State(free, []), ops);
      Apart(t.free + t.granted) && Space(t) == Total(free) + Total(Inserted(ops))
  {
    var s := State(free, []);
    var t := Run(s, ops);
    RunConserves(s, ops, 0);
    forall j, k, x | 0 <= j < k < |t.free + t.granted| && In(x, (t.free + t.granted)[j])
      ensures !In(x, (t.free + t.granted)[k])
    {
      RunConserves(s, ops, x);
      CountAppend(t.free, t.granted, x);
      CountAppend(free, Inserted(ops), x);
      ApartCount(free + Inserted(ops), x);
      if In(x, (t.free + t.granted)[k]) { CountApart(t.free + t.granted, x, j, k); }
    }
  }
}

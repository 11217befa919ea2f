/** The linked lists of src/mm-vm.c and src/libmem.c: memory areas, and the free
    regions of an area that first fit cuts and unlinks in place. */
module VmArea {
  import opened Regions

  // struct vm_rg_struct
  class RegionNode {
    var start: Address
    var end: Address
    var next: RegionNode?

    constructor (r: Region)
      ensures start == r.start && end == r.end && next == null
    {
      start, end, next := r.start, r.end, null;
    }
  }

  function FirstOf(nodes: seq<RegionNode>, k: nat): RegionNode? {
    if k < |nodes| then nodes[k] else null
  }

  ghost predicate Carries(nodes: seq<RegionNode>, rs: seq<Region>)
    reads nodes
  {
    |nodes| == |rs| && forall k :: 0 <= k < |nodes| ==> nodes[k].start == rs[k].start && nodes[k].end == rs[k].end
  }

  ghost predicate Linked(nodes: seq<RegionNode>)
    reads nodes
  {
    forall k :: 0 <= k < |nodes| ==> nodes[k].next == FirstOf(nodes, k + 1)
  }

  ghost predicate Different(nodes: seq<RegionNode>) {
    forall j, k :: 0 <= j < k < |nodes| ==> nodes[j] != nodes[k]
  }

  // The nodes, in order, carry these regions and end in NULL.
  ghost predicate IsChain(nodes: seq<RegionNode>, rs: seq<Region>)
    reads nodes
  {
    Carries(nodes, rs) && Linked(nodes) && Different(nodes)
  }

  function Without<T>(s: seq<T>, k: nat): (r: seq<T>)
    requires k < |s|
    ensures |r| == |s| - 1
    ensures forall j :: 0 <= j < |r| ==> r[j] == s[if j < k then j else j + 1]
  {
    s[..k] + s[k + 1..]
  }

  lemma WithoutFirst(nodes: seq<RegionNode>, k: nat, j: nat)
    requires k < |nodes|
    ensures FirstOf(Without(nodes, k), j) == FirstOf(nodes, if j < k then j else j + 1)
  {
  }

  lemma WithoutSubset<T>(s: seq<T>, k: nat)
    requires k < |s|
    ensures forall x :: x in Without(s, k) ==> x in s
  {
  }

  // Cutting a region moves its start, and drops it if nothing is left.
  lemma CutInPlace(rs: seq<Region>, k: nat, size: int)
    requires k < |rs|
    ensures var moved := rs[k := Region(Front(rs[k], size).end, rs[k].end)];
      Cut(rs, k, size) == if Front(rs[k], size).end >= rs[k].end then Without(moved, k) else moved
  {
  }

  // The links when node k has been bypassed.
  lemma BypassedLinks(nodes: seq<RegionNode>, k: nat)
    requires k < |nodes|
    requires forall j :: 0 <= j < |nodes| && j + 1 != k && j != k ==> nodes[j].next == FirstOf(nodes, j + 1)
    requires 0 < k ==> nodes[k - 1].next == FirstOf(nodes, k + 1)
    ensures Linked(Without(nodes, k))
  {
    var left := Without(nodes, k);
    forall j | 0 <= j < |left| ensures left[j].next == FirstOf(left, j + 1) {
      WithoutFirst(nodes, k, j + 1);
      if j < k { assert left[j] == nodes[j]; } else { assert left[j] == nodes[j + 1]; }
    }
  }

  lemma WithoutChain(nodes: seq<RegionNode>, rs: seq<Region>, k: nat)
    requires k < |nodes| && Carries(nodes, rs) && Different(nodes) && Linked(Without(nodes, k))
    ensures IsChain(Without(nodes, k), Without(rs, k))
  {
  }

  // struct vm_area_struct
  class Area {
    const id: nat
    var vmEnd: nat
    var next: Area?
    var freeList: RegionNode?
    ghost var nodes: seq<RegionNode>
    ghost var regions: seq<Region>

    ghost predicate Valid()
      reads this, nodes
    {
      freeList == FirstOf(nodes, 0) && IsChain(nodes, regions)
    }

    // As init_mm makes it: one empty free region.
    constructor (id: nat, end: Address)
      ensures Valid() && fresh(nodes) && regions == [Region(end, end)]
      ensures this.id == id && vmEnd == end && next == null
    {
      this.id := id;
      vmEnd := end;
      next := null;
      var first := new RegionNode(Region(end, end));
      freeList := first;
      nodes := [first];
      regions := [Region(end, end)];
    }

    // Taking node k, which follows prev, out of the list.
    method Unlink(ghost k: nat, prev: RegionNode?, node: RegionNode)
      requires Valid() && k < |nodes| && node == nodes[k]
      requires prev == if k == 0 then null else nodes[k - 1]
      modifies this`freeList, this`nodes, this`regions, prev
      ensures Valid() && regions == Without(old(regions), k)
      ensures forall n :: n in nodes ==> n in old(nodes)
    {
      if prev == null { freeList := node.next; } else { prev.next := node.next; }
      BypassedLinks(nodes, k);
      WithoutChain(nodes, regions, k);
      WithoutSubset(nodes, k);
      nodes := Without(nodes, k);
      regions := Without(regions, k);
    }

    method MoveStart(ghost k: nat, node: RegionNode, start: Address)
      requires Valid() && k < |nodes| && node == nodes[k]
      modifies this`regions, node`start
      ensures Valid() && node.start == start && node.end == old(node.end)
      ensures regions == old(regions)[k := Region(start, node.end)]
    {
      node.start := start;
      regions := regions[k := Region(start, node.end)];
    }

    // What get_free_vmrg_area does with the first node that fits.
    method CutNode(ghost k: nat, prev: RegionNode?, node: RegionNode, size: int) returns (got: Region)
      requires Valid() && k < |nodes| && node == nodes[k]
      requires prev == if k == 0 then null else nodes[k - 1]
      modifies this`freeList, this`nodes, this`regions, prev, node
      ensures Valid() && (forall n :: n in nodes ==> n in old(nodes))
      ensures got == Front(old(regions)[k], size) && regions == Cut(old(regions), k, size)
    {
      CutInPlace(regions, k, size);
      got := Region(node.start, Wrap(node.start + size));
      MoveStart(k, node, got.end);
      if node.start >= node.end { Unlink(k, prev, node); }
    }

    // get_free_vmrg_area on this area; `newrg` is what the caller's region held.
    method GetFree(size: int, newrg: Region) returns (code: int, got: Region)
      requires Valid()
      modifies this`freeList, this`nodes, this`regions, nodes
      ensures Valid() && (forall n :: n in nodes ==> n in old(nodes))
      ensures (code, got, regions) == Regions.GetFree(old(regions), size, newrg)
    {
      var node := freeList;
      if node == null { return -1, newrg; }
      code, got := 0, NO_REGION;
      var prev: RegionNode? := null;
      ghost var k := 0;
      while node != null
        invariant k <= |nodes| && node == FirstOf(nodes, k) && prev == (if k == 0 then null else nodes[k - 1])
        invariant FirstFit(regions, size, 0) == FirstFit(regions, size, k)
        decreases |nodes| - k
      {
        if Avail(Region(node.start, node.end)) >= size {
          got := CutNode(k, prev, node, size);
          return;
        }
        prev := node;
        node := node.next;
        k := k + 1;
      }
    }

    // enlist_vm_freerg_list: the element becomes the head. When the list is empty its
    // own next pointer is left as it was, so that whatever hangs on it comes along.
    method Enlist(node: RegionNode, ghost tail: seq<RegionNode>, ghost rest: seq<Region>) returns (code: int)
      requires Valid() && node !in nodes && node !in tail
      requires node.next == FirstOf(tail, 0) && IsChain(tail, rest)
      modifies this`freeList, this`nodes, this`regions, node`next
      ensures Valid()
      ensures (code, regions) ==
        Regions.Enlist(if old(regions) == [] && node.start < node.end then rest else old(regions),
                       Region(node.start, node.end))
      ensures code == if node.start < node.end then 0 else -1
      ensures code == 0 ==>
        regions == [Region(node.start, node.end)] + if old(regions) == [] then rest else old(regions)
      ensures code == -1 ==> regions == old(regions)
    {
      if node.start >= node.end { return -1; }
      if freeList != null {
        node.next := freeList;
        nodes := [node] + nodes;
        regions := [Region(node.start, node.end)] + regions;
      } else {
        nodes := [node] + tail;
        regions := [Region(node.start, node.end)] + rest;
      }
      freeList := node;
      return 0;
    }
  }

  function FirstArea(areas: seq<Area>, k: nat): Area? {
    if k < |areas| then areas[k] else null
  }

  ghost predicate AreaChain(areas: seq<Area>)
    reads areas
  {
    forall k :: 0 <= k < |areas| ==> areas[k].next == FirstArea(areas, k + 1)
  }

  // The first area from i on whose id is not below the one asked for.
  function FindArea(areas: seq<Area>, vmaid: int, i: nat): (k: nat)
    requires i <= |areas|
    ensures i <= k <= |areas|
    ensures k < |areas| ==> areas[k].id >= vmaid
    ensures forall j :: i <= j < k ==> areas[j].id < vmaid
    decreases |areas| - i
  {
    if i == |areas| || areas[i].id >= vmaid then i else FindArea(areas, vmaid, i + 1)
  }

  // get_vma_by_num
  method GetVmaByNum(mmap: Area?, vmaid: int, ghost areas: seq<Area>) returns (area: Area?)
    requires AreaChain(areas) && mmap == FirstArea(areas, 0)
    ensures area == FirstArea(areas, FindArea(areas, vmaid, 0))
  {
    var pvma := mmap;
    if pvma == null { return null; }
    var id := pvma.id;
    ghost var k := 0;
    while id < vmaid
      invariant k < |areas| && pvma == areas[k] && id == areas[k].id
      invariant FindArea(areas, vmaid, 0) == FindArea(areas, vmaid, k)
      decreases |areas| - k
    {
      pvma := pvma.next;
      k := k + 1;
      if pvma == null { return null; }
      id := pvma.id;
    }
    return pvma;
  }

  // get_free_vmrg_area, which does not allow for an area that does not exist.
  method GetFreeVmrgArea(mmap: Area?, vmaid: int, size: int, newrg: Region, ghost areas: seq<Area>)
    returns (code: int, got: Region)
    requires AreaChain(areas) && mmap == FirstArea(areas, 0)
    requires FindArea(areas, vmaid, 0) < |areas| && areas[FindArea(areas, vmaid, 0)].Valid()
    modifies areas[FindArea(areas, vmaid, 0)], areas[FindArea(areas, vmaid, 0)].nodes
    ensures var area := areas[FindArea(areas, vmaid, 0)];
      area.Valid() && (code, got, area.regions) == Regions.GetFree(old(area.regions), size, newrg)
  {
    var area := GetVmaByNum(mmap, vmaid, areas);
    code, got := area.GetFree(size, newrg);
  }
}

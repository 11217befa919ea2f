/** src/mm-memphy.c: a physical memory device with its linked list of free frames,
    and the page copy of src/mm.c between two devices. */
module Memphy {
  import opened Bits
  import opened Pte

  /* ---------- The free-frame list ---------- */

  // struct framephy_struct
  class FrameNode {
    const fpn: Word
    var next: FrameNode?

    constructor (fpn: Word, next: FrameNode?)
      ensures this.fpn == fpn && this.next == next
    {
      this.fpn := fpn;
      this.next := next;
    }
  }

  function FirstOf(nodes: seq<FrameNode>, k: nat): FrameNode? {
    if k < |nodes| then nodes[k] else null
  }

  // The nodes, in order, carry these frame numbers and end in NULL.
  ghost predicate IsChain(nodes: seq<FrameNode>, fpns: seq<Word>)
    reads nodes
  {
    && |nodes| == |fpns|
    && (forall k :: 0 <= k < |nodes| ==> nodes[k].fpn == fpns[k] && nodes[k].next == FirstOf(nodes, k + 1))
    && (forall j, k :: 0 <= j < k < |nodes| ==> nodes[j] != nodes[k])
  }

  // The frames 0 to n - 1.
  function Frames(n: nat): (r: seq<Word>)
    requires n <= WORD
    ensures |r| == n && forall k :: 0 <= k < n ==> r[k] == k
  {
    seq(n, k requires 0 <= k < n => k)
  }

  // struct memphy_struct
  class Device {
    const storage: array<Byte>
    const maxsz: nat
    const rdmflg: bool
    var freeList: FrameNode?
    ghost var nodes: seq<FrameNode>
    ghost var free: seq<Word>  // the frame numbers on the free list

    ghost predicate Valid()
      reads this, nodes
    {
      storage.Length == maxsz < WORD && freeList == FirstOf(nodes, 0) && IsChain(nodes, free)
    }

    // init_memphy
    constructor (size: nat, random: bool)
      requires size < WORD
      ensures Valid() && fresh(storage) && fresh(nodes) && maxsz == size && rdmflg == random
      ensures storage[..] == seq(size, _ => 0)
      ensures free == Frames(size / PAGING_PAGESZ)
    {
      storage := new Byte[size](_ => 0);
      maxsz := size;
      rdmflg := random;
      freeList := null;
      nodes := [];
      free := [];
      new;
      var _ := Format(PAGING_PAGESZ);
    }

    // MEMPHY_format
    method Format(pagesz: nat) returns (code: int)
      requires Valid() && 0 < pagesz
      modifies this`freeList, this`nodes, this`free
      ensures Valid() && fresh(set n | n in nodes && n !in old(nodes))
      ensures code == if maxsz / pagesz <= 0 then -1 else 0
      ensures code == -1 ==> nodes == old(nodes) && free == old(free)
      ensures code == 0 ==> fresh(nodes) && maxsz / pagesz <= WORD && free == Frames(maxsz / pagesz)
    {
      var numfp := maxsz / pagesz;
      if numfp <= 0 { return -1; }
      QuotientSmaller(maxsz, pagesz);
      var fst := FirstFrame();
      for iter := 1 to numfp
        invariant Valid() && fresh(nodes) && 0 < |nodes| && fst == nodes[|nodes| - 1]
        invariant |free| == iter && forall k :: 0 <= k < iter ==> free[k] == k
      {
        fst := AppendFrame(fst, iter);
      }
      return 0;
    }

    // The list of frame 0 alone.
    method FirstFrame() returns (fst: FrameNode)
      modifies this`freeList, this`nodes, this`free
      ensures freeList == fst && nodes == [fst] && free == [0] && fresh(fst) && fst.fpn == 0 && fst.next == null
    {
      fst := new FrameNode(0, null);
      freeList := fst;
      nodes := [fst];
      free := [0];
    }

    method AppendFrame(tail: FrameNode, fpn: Word) returns (node: FrameNode)
      requires Valid() && nodes != [] && tail == nodes[|nodes| - 1]
      modifies this`nodes, this`free, tail`next
      ensures Valid() && fresh(node) && nodes == old(nodes) + [node] && free == old(free) + [fpn]
    {
      node := new FrameNode(fpn, null);
      Append(tail, node);
    }

    // Linking a new node behind the last one.
    method Append(tail: FrameNode, node: FrameNode)
      requires Valid() && nodes != [] && tail == nodes[|nodes| - 1] && node !in nodes && node.next == null
      modifies this`nodes, this`free, tail`next
      ensures Valid() && nodes == old(nodes) + [node] && free == old(free) + [node.fpn]
    {
      tail.next := node;
      nodes := nodes + [node];
      free := free + [node.fpn];
    }

    // MEMPHY_get_freefp: 0 and the frame, or -1 when no frame is free.
    method GetFreeFp() returns (code: int, fpn: Word)
      requires Valid()
      modifies this`freeList, this`nodes, this`free
      ensures Valid()
      ensures old(free) == [] ==> code == -1 && free == [] && nodes == []
      ensures old(free) != [] ==>
        code == 0 && fpn == old(free)[0] && free == old(free)[1..] && nodes == old(nodes)[1..]
    {
      if freeList == null { return -1, 0; }
      fpn := freeList.fpn;
      freeList := freeList.next;
      nodes := nodes[1..];
      free := free[1..];
      return 0, fpn;
    }

    // MEMPHY_put_freefp
    method PutFreeFp(fpn: Word)
      requires Valid()
      modifies this`freeList, this`nodes, this`free
      ensures Valid() && free == [fpn] + old(free)
      ensures exists n :: fresh(n) && nodes == [n] + old(nodes)
    {
      var node := new FrameNode(fpn, freeList);
      freeList := node;
      nodes := [node] + nodes;
      free := [fpn] + free;
    }

    // MEMPHY_read and MEMPHY_write; a sequential device always answers -1, because
    // the sequential functions test the access flag the same way round.
    method Read(a: nat) returns (code: int, value: Byte)
      requires Valid() && (rdmflg ==> a < maxsz)
      ensures code == (if rdmflg then 0 else -1) && (rdmflg ==> value == storage[a])
    {
      if rdmflg { return 0, storage[a]; } else { return -1, 0; }
    }

    method Write(a: nat, value: Byte) returns (code: int)
      requires Valid() && (rdmflg ==> a < maxsz)
      modifies storage
      ensures Valid() && code == (if rdmflg then 0 else -1)
      ensures storage[..] == if rdmflg then old(storage[..])[a := value] else old(storage[..])
    {
      if rdmflg {
        storage[a] := value;
        return 0;
      } else {
        return -1;
      }
    }
  }

  /* ---------- Page copy ---------- */

  // The bytes of dst after n bytes of src from s on have been copied to d.
  function CopyCells(src: seq<Byte>, s: nat, dst: seq<Byte>, d: nat, n: nat): (r: seq<Byte>)
    requires s + n <= |src| && d + n <= |dst|
    ensures |r| == |dst|
  {
    dst[..d] + src[s..s + n] + dst[d + n..]
  }

  // The bytes of dst after frame s of src has been copied to its frame d.
  function CopyPage(src: seq<Byte>, s: nat, dst: seq<Byte>, d: nat): (r: seq<Byte>)
    requires (s + 1) * PAGING_PAGESZ <= |src| && (d + 1) * PAGING_PAGESZ <= |dst|
    ensures |r| == |dst|
  {
    CopyCells(src, s * PAGING_PAGESZ, dst, d * PAGING_PAGESZ, PAGING_PAGESZ)
  }

  // Byte by byte: the page holds the bytes of the source page, and nothing else changes.
  lemma CopyPageAt(src: seq<Byte>, s: nat, dst: seq<Byte>, d: nat, k: nat)
    requires (s + 1) * PAGING_PAGESZ <= |src| && (d + 1) * PAGING_PAGESZ <= |dst| && k < |dst|
    ensures CopyPage(src, s, dst, d)[k] ==
      if k / PAGING_PAGESZ == d then src[s * PAGING_PAGESZ + (k - d * PAGING_PAGESZ)] else dst[k]
  {
  }

  lemma CopyStep(src: seq<Byte>, s: nat, dst: seq<Byte>, d: nat, n: nat)
    requires s + n < |src| && d + n < |dst|
    ensures CopyCells(src, s, dst, d, n + 1) == CopyCells(src, s, dst, d, n)[d + n := src[s + n]]
  {
  }

  // Copying within one device never reads a byte it has already changed.
  lemma NextCellIntact(ram: seq<Byte>, s: nat, d: nat, n: nat)
    requires n < PAGING_PAGESZ && (s + 1) * PAGING_PAGESZ <= |ram| && (d + 1) * PAGING_PAGESZ <= |ram|
    ensures CopyCells(ram, s * PAGING_PAGESZ, ram, d * PAGING_PAGESZ, n)[s * PAGING_PAGESZ + n] ==
      ram[s * PAGING_PAGESZ + n]
  {
    if s < d {
      assert (s + 1) * PAGING_PAGESZ <= d * PAGING_PAGESZ;
    } else if d < s {
      assert (d + 1) * PAGING_PAGESZ <= s * PAGING_PAGESZ;
    }
  }

  // The devices after n cells have been copied: the source is intact, unless it is
  // the destination.
  ghost predicate Copied(src: Device, s: nat, dst: Device, d: nat, n: nat, from: seq<Byte>, onto: seq<Byte>)
    reads src.storage, dst.storage
  {
    && s + n <= |from| && d + n <= |onto| && dst.storage[..] == CopyCells(from, s, onto, d, n)
    && if src == dst then from == onto else src.storage[..] == from
  }

  method CopyCell(src: Device, srcfpn: nat, dst: Device, dstfpn: nat, cell: nat,
                  ghost from: seq<Byte>, ghost onto: seq<Byte>)
    requires src.Valid() && dst.Valid() && (dst.rdmflg ==> src.rdmflg)
    requires src == dst || src.storage != dst.storage
    requires cell < PAGING_PAGESZ
    requires (srcfpn + 1) * PAGING_PAGESZ <= src.maxsz && (dstfpn + 1) * PAGING_PAGESZ <= dst.maxsz
    requires dst.rdmflg ==> Copied(src, srcfpn * PAGING_PAGESZ, dst, dstfpn * PAGING_PAGESZ, cell, from, onto)
    modifies dst.storage
    ensures dst.rdmflg ==> Copied(src, srcfpn * PAGING_PAGESZ, dst, dstfpn * PAGING_PAGESZ, cell + 1, from, onto)
    ensures !dst.rdmflg ==> dst.storage[..] == old(dst.storage[..])
  {
    var s, d := srcfpn * PAGING_PAGESZ, dstfpn * PAGING_PAGESZ;
    if dst.rdmflg {
      CopyStep(from, s, onto, d, cell);
      if src == dst { NextCellIntact(from, srcfpn, dstfpn, cell); }
      assert src.storage[..][s + cell] == from[s + cell];
    }
    var _, data := src.Read(s + cell);
    var _ := dst.Write(d + cell, data);
  }

  // __swap_cp_page, between any two devices or within one. Writing to a sequential
  // device does nothing; reading from one would leave the copied byte undefined.
  method SwapCpPage(src: Device, srcfpn: nat, dst: Device, dstfpn: nat)
    requires src.Valid() && dst.Valid() && (dst.rdmflg ==> src.rdmflg)
    requires src == dst || src.storage != dst.storage
    requires (srcfpn + 1) * PAGING_PAGESZ <= src.maxsz && (dstfpn + 1) * PAGING_PAGESZ <= dst.maxsz
    modifies dst.storage
    ensures dst.Valid()
    ensures dst.storage[..] ==
      if dst.rdmflg then CopyPage(old(src.storage[..]), srcfpn, old(dst.storage[..]), dstfpn) else old(dst.storage[..])
    ensures forall k :: 0 <= k < dst.storage.Length ==>
      dst.storage[k] ==
        if dst.rdmflg && k / PAGING_PAGESZ == dstfpn
        then old(src.storage[..])[srcfpn * PAGING_PAGESZ + (k - dstfpn * PAGING_PAGESZ)]
        else old(dst.storage[..])[k]
  {
    ghost var from, onto := src.storage[..], dst.storage[..];
    for cell := 0 to PAGING_PAGESZ
      invariant dst.rdmflg ==> Copied(src, srcfpn * PAGING_PAGESZ, dst, dstfpn * PAGING_PAGESZ, cell, from, onto)
      invariant !dst.rdmflg ==> dst.storage[..] == onto
    {
      CopyCell(src, srcfpn, dst, dstfpn, cell, from, onto);
    }
    forall k | dst.rdmflg && 0 <= k < dst.storage.Length
      ensures dst.storage[..][k] ==
        if k / PAGING_PAGESZ == dstfpn then from[srcfpn * PAGING_PAGESZ + (k - dstfpn * PAGING_PAGESZ)] else onto[k]
    {
      CopyPageAt(from, srcfpn, onto, dstfpn, k);
    }
  }

  // Copying a page out to another frame and back restores it, whatever was written
  // over it in between.
  lemma CopyOutAndBack(ram: seq<Byte>, r: nat, swap: seq<Byte>, w: nat, ram': seq<Byte>)
    requires (r + 1) * PAGING_PAGESZ <= |ram| == |ram'| && (w + 1) * PAGING_PAGESZ <= |swap|
    requires forall k :: 0 <= k < |ram| && k / PAGING_PAGESZ != r ==> ram'[k] == ram[k]
    ensures CopyPage(CopyPage(ram, r, swap, w), w, ram', r) == ram
  {
    var back := CopyPage(CopyPage(ram, r, swap, w), w, ram', r);
    forall k | 0 <= k < |ram| ensures back[k] == ram[k] {
      if k / PAGING_PAGESZ == r {
        assert back[k] == CopyPage(ram, r, swap, w)[w * PAGING_PAGESZ + (k - r * PAGING_PAGESZ)];
      }
    }
  }
}

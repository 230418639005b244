/**
 kmeminit, kmalloc and kfree (c/mem.c) on headers in memory: a doubly linked free list,
 split and merged in place.
 */
module HeapMemory {
  import opened Heap

  /** memHeader; pointers are addresses, 0 is NULL. */
  datatype Header = Header(size: nat, prev: nat, next: nat, sane: nat)

  type Memory = map<nat, Header>

  /** The address of the i-th free block, 0 outside the list. */
  function AddrAt(free: seq<Block>, i: nat): nat {
    if i < |free| then free[i].addr else 0
  }

  /** The address of the one before it. */
  function PrevAt(free: seq<Block>, i: nat): nat {
    if 0 < i <= |free| then free[i - 1].addr else 0
  }

  /** The list can be read forwards, with the right sizes, ... */
  ghost predicate Nexts(mem: Memory, freeList: nat, free: seq<Block>) {
    && freeList == AddrAt(free, 0)
    && forall i {:trigger free[i]} :: 0 <= i < |free| ==>
         free[i].addr in mem && mem[free[i].addr].size == free[i].size && mem[free[i].addr].next == AddrAt(free, i + 1)
  }

  /** ... and every node points back to the one before it. */
  ghost predicate Prevs(mem: Memory, free: seq<Block>) {
    forall i {:trigger free[i]} :: 0 <= i < |free| ==> free[i].addr in mem && mem[free[i].addr].prev == PrevAt(free, i)
  }

  ghost predicate Rising(free: seq<Block>) {
    && (forall i :: 0 <= i < |free| ==> free[i].addr > 0)
    && (forall i, j :: 0 <= i < j < |free| ==> free[i].addr < free[j].addr)
  }

  /** Allocated blocks have their size in their header, and are the only ones marked as allocated. */
  ghost predicate Marked(mem: Memory, live: map<nat, nat>) {
    && (forall a :: a in live ==> a in mem && mem[a].size == live[a])
    && (forall a :: a in mem ==> (mem[a].sane == a + HEADER <==> a in live))
  }

  lemma MarkedSize(mem: Memory, live: map<nat, nat>, a: nat)
    requires Marked(mem, live) && a in live
    ensures a in mem && mem[a].size == live[a]
  {
  }

  lemma InvRising(h: Heap, start: nat)
    requires Inv(h, start)
    ensures Rising(h.free)
  {
  }

  // ------------------------------------------------------------------
  // Changing the list

  /** A block linked in before the k-th. */
  lemma Inserted(mem: Memory, mem': Memory, freeList: nat, free: seq<Block>, k: nat, b: Block)
    requires Nexts(mem, freeList, free) && Prevs(mem, free) && Rising(free) && k <= |free|
    requires (k > 0 ==> free[k - 1].addr < b.addr) && (k < |free| ==> b.addr < free[k].addr)
    requires b.addr in mem' && mem'[b.addr].size == b.size && mem'[b.addr].prev == PrevAt(free, k)
    requires mem'[b.addr].next == AddrAt(free, k)
    requires forall i {:trigger free[i]} :: 0 <= i < |free| ==>
      && free[i].addr in mem' && mem'[free[i].addr].size == mem[free[i].addr].size
      && mem'[free[i].addr].next == (if i + 1 == k then b.addr else mem[free[i].addr].next)
      && mem'[free[i].addr].prev == (if i == k then b.addr else mem[free[i].addr].prev)
    ensures var r := free[..k] + [b] + free[k..];
      Nexts(mem', if k == 0 then b.addr else freeList, r) && Prevs(mem', r)
  {
    var r := free[..k] + [b] + free[k..];
    forall i {:trigger r[i]} | 0 <= i < |r|
      ensures r[i].addr in mem' && mem'[r[i].addr].size == r[i].size
      ensures mem'[r[i].addr].next == AddrAt(r, i + 1) && mem'[r[i].addr].prev == PrevAt(r, i)
    {
      if i < k {
        assert r[i] == free[i];
      } else if i > k {
        assert r[i] == free[i - 1];
      }
    }
  }

  /** The k-th block and the next one, as one. */
  function JoinAt(free: seq<Block>, k: nat): (r: seq<Block>)
    requires k + 1 < |free|
    ensures |r| == |free| - 1
  {
    free[..k] + [Join(free[k], free[k + 1])] + free[k + 2..]
  }

  /** Merging two neighbours: the forward links and sizes. */
  lemma JoinedNexts(mem: Memory, mem': Memory, freeList: nat, free: seq<Block>, k: nat)
    requires Nexts(mem, freeList, free) && Rising(free) && k + 1 < |free|
    requires forall i {:trigger free[i]} :: 0 <= i < |free| && i != k + 1 ==>
      && free[i].addr in mem'
      && mem'[free[i].addr].size ==
           (if i == k then free[k].size + free[k + 1].size + HEADER else mem[free[i].addr].size)
      && mem'[free[i].addr].next == (if i == k then mem[free[k + 1].addr].next else mem[free[i].addr].next)
    ensures Nexts(mem', freeList, JoinAt(free, k))
  {
    var r := JoinAt(free, k);
    forall i {:trigger r[i]} | 0 <= i < |r|
      ensures r[i].addr in mem' && mem'[r[i].addr].size == r[i].size && mem'[r[i].addr].next == AddrAt(r, i + 1)
    {
      if i < k {
        assert r[i] == free[i];
      } else if i == k {
        assert free[k].addr in mem' && free[k + 1].addr in mem;
      } else {
        assert r[i] == free[i + 1];
      }
    }
  }

  /** Merging two neighbours: the backward links are right exactly if that of the block after them is mended. */
  lemma JoinedPrevs(mem: Memory, mem': Memory, free: seq<Block>, k: nat)
    requires Prevs(mem, free) && Rising(free) && k + 1 < |free|
    requires forall i {:trigger free[i]} :: 0 <= i < |free| && i != k + 1 ==> free[i].addr in mem'
    requires forall i {:trigger free[i]} :: 0 <= i < |free| && i != k + 1 && i < k + 2 ==>
      mem'[free[i].addr].prev == mem[free[i].addr].prev
    requires k + 2 < |free| && mem'[free[k + 2].addr].prev == free[k].addr ==>
      forall i {:trigger free[i]} :: k + 2 < i < |free| ==> mem'[free[i].addr].prev == mem[free[i].addr].prev
    ensures Prevs(mem', JoinAt(free, k)) <==> (k + 2 == |free| || mem'[free[k + 2].addr].prev == free[k].addr)
  {
    var r := JoinAt(free, k);
    if k + 2 < |free| {
      assert r[k + 1] == free[k + 2] && AddrAt(r, k) == free[k].addr;
    }
    if k + 2 == |free| || mem'[free[k + 2].addr].prev == free[k].addr {
      forall i {:trigger r[i]} | 0 <= i < |r|
        ensures r[i].addr in mem' && mem'[r[i].addr].prev == PrevAt(r, i)
      {
        if i < k {
          assert r[i] == free[i];
        } else if i == k {
          assert free[k].addr in mem';
        } else {
          assert r[i] == free[i + 1];
        }
      }
    }
  }

  /** Only headers of the listed blocks change, and no mark does. */
  ghost predicate Others(mem: Memory, mem': Memory, free: seq<Block>) {
    && mem'.Keys == mem.Keys
    && (forall a :: a in mem ==> mem'[a].sane == mem[a].sane)
    && (forall a :: a in mem && (forall i :: 0 <= i < |free| ==> free[i].addr != a) ==> mem'[a] == mem[a])
  }

  lemma Found(free: seq<Block>, k: nat)
    requires Rising(free)
    ensures AddrAt(free, k) == 0 <==> k >= |free|
  {
  }

  /** Releasing a block is inserting it in its place and merging it with its neighbours. */
  lemma ReleaseSteps(free: seq<Block>, b: Block)
    ensures var k := Slot(free, b.addr);
      var f1 := free[..k] + [b] + free[k..];
      var lower := k > 0 && End(f1[k - 1]) == b.addr;
      var f2, k2 := if lower then JoinAt(f1, k - 1) else f1, if lower then k - 1 else k;
      && k2 < |f2|
      && Release(free, b) == if k2 + 1 < |f2| && End(f2[k2]) == f2[k2 + 1].addr then JoinAt(f2, k2) else f2
  {
    hide Slot;
    var k := Slot(free, b.addr);
    var f1 := free[..k] + [b] + free[k..];
    assert k > 0 ==> f1[k - 1] == free[k - 1];
    if k > 0 && End(f1[k - 1]) == b.addr {
      var b1 := Join(free[k - 1], b);
      assert JoinAt(f1, k - 1) == free[..k - 1] + [b1] + free[k..];
      JoinTail(free[..k - 1], b1, free[k..]);
    } else {
      JoinTail(free[..k], b, free[k..]);
    }
  }

  lemma JoinTail(front: seq<Block>, b: Block, tail: seq<Block>)
    ensures var f, k := front + [b] + tail, |front|;
      && f[k] == b && |f| == k + 1 + |tail| && (|tail| > 0 ==> f[k + 1] == tail[0])
      && (|tail| > 0 ==> JoinAt(f, k) == front + [Join(b, tail[0])] + tail[1..])
  {
  }

  /** A released block absorbs the one after it, and that one has a successor: the case kfree gets wrong. */
  ghost predicate OvertakesIn(free: seq<Block>, b: Block) {
    var k := Slot(free, b.addr);
    k + 1 < |free| && End(b) == free[k].addr
  }

  ghost predicate Overtakes(h: Heap, a: nat) {
    a in h.live && OvertakesIn(h.free, Block(a, h.live[a]))
  }

  class MemoryManager {
    var mem: Memory
    var freeList: nat
    ghost var h: Heap

    ghost predicate Listed(free: seq<Block>)
      reads this
    {
      Nexts(mem, freeList, free) && Prevs(mem, free) && Rising(free)
    }

    ghost predicate Valid(start: nat)
      reads this
    {
      Inv(h, start) && Listed(h.free) && Marked(mem, h.live)
    }

    /** kmeminit() */
    constructor (freemem: nat)
      requires 0 < freemem && RoundUp(freemem) + 2 * HEADER <= HOLESTART
      ensures Valid(RoundUp(freemem)) && h == Initial(freemem)
    {
      var start := RoundUp(freemem);
      InitialInv(freemem);
      mem := map[start := Header(HOLESTART - HEADER - start, 0, HOLEEND, 0),
                 HOLEEND := Header(FREEMEM_END - HOLEEND - HEADER, start, 0, 0)];
      freeList := start;
      h := Initial(freemem);
    }

    // ----------------------------------------------------------------
    // kmalloc

    /** The first node that is large enough, 0 if there is none. */
    method Search(amount: nat, ghost free: seq<Block>) returns (node: nat, ghost k: nat)
      requires Listed(free)
      ensures k == FirstFit(free, amount) && node == AddrAt(free, k)
    {
      node, k := freeList, 0;
      while node != 0 && mem[node].size < amount
        invariant k <= |free| && node == AddrAt(free, k) && FirstFit(free, amount) == k + FirstFit(free[k..], amount)
        decreases |free| - k
      {
        assert free[k].addr in mem && free[k..][1..] == free[k + 1..];
        node := mem[node].next;
        k := k + 1;
      }
    }

    /** kmalloc() */
    method Kmalloc(size: int, ghost start: nat) returns (p: nat)
      requires Valid(start)
      modifies this
      ensures Valid(start) && (h, p) == Alloc(old(h), size)
      ensures p != 0 ==> p >= HEADER && p - HEADER in mem && size <= mem[p - HEADER].size < size + 16
    {
      hide Inv, Nexts, Prevs, Rising, Marked, Take, FirstFit, Aligned;
      if size <= 0 {
        return 0;
      }
      var amount := RoundUp(size);
      InvRising(h, start);
      var node;
      ghost var k;
      node, k := Search(amount, h.free);
      Found(h.free, k);
      if node == 0 {
        return 0;
      }
      ghost var h0 := h;
      AllocInv(h, start, size);
      AllocServes(h, start, size);
      TakeInv(h, start, k, amount);
      h := Alloc(h0, size).0;
      TakeNode(node, amount, h0, start, k);
      InvRising(h, start);
      p := node + HEADER;
      MarkedSize(mem, h.live, node);
    }

    /** Split the node or take it whole, and mark it as allocated. */
    method TakeNode(node: nat, amount: nat, ghost h0: Heap, ghost start: nat, ghost k: nat)
      requires Inv(h0, start) && Listed(h0.free) && Marked(mem, h0.live)
      requires k < |h0.free| && node == h0.free[k].addr && h0.free[k].size >= amount > 0 && Aligned(amount)
      modifies this`mem, this`freeList
      ensures Nexts(mem, freeList, Take(h0.free, k, amount)) && Prevs(mem, Take(h0.free, k, amount))
      ensures Marked(mem, h0.live[node := amount])
    {
      hide Inv, Aligned, Marked, Nexts, Prevs, Rising, Take;
      ghost var free, m0 := h0.free, mem;
      ghost var head := freeList;
      var nextNode;
      NewNodeApart(h0, start, k);
      NodeAt(mem, freeList, free, k);
      var rmdSize: int := mem[node].size - amount - HEADER;
      if rmdSize > 0 {
        nextNode := node + HEADER + amount;
        mem := WithRest(mem, node, nextNode, rmdSize);
      } else {
        nextNode := mem[node].next;
      }
      RestIs(m0, head, free, k, amount);
      if nextNode != 0 {
        mem := mem[nextNode := mem[nextNode].(prev := mem[node].prev)];
      }
      if mem[node].prev != 0 {
        mem := mem[mem[node].prev := mem[mem[node].prev].(next := nextNode)];
      } else {
        freeList := nextNode;
      }
      mem := mem[node := Header(amount, 0, 0, node + HEADER)];
      assert mem == Final(m0, node, amount);
      TakenList(m0, head, free, k, amount);
      TakenMarks(m0, head, h0, start, k, amount);
    }

    // ----------------------------------------------------------------
    // kfree

    /** Link the header in, in order of address. */
    method PutIn(hdr: nat, ghost free: seq<Block>, ghost b: Block)
      requires Listed(free) && b.addr == hdr > 0 && hdr in mem && mem[hdr].size == b.size && mem[hdr].next == 0
      requires mem[hdr].prev == 0
      requires forall i :: 0 <= i < |free| ==> free[i].addr != hdr
      modifies this`mem, this`freeList
      ensures var k := Slot(free, hdr); Listed(free[..k] + [b] + free[k..])
      ensures var k := Slot(free, hdr); Others(old(mem), mem, free[..k] + [b] + free[k..])
    {
      hide Nexts, Prevs, Rising, Slot;
      ghost var m0 := mem;
      ghost var k := Slot(free, hdr);
      SlotNodes(m0, freeList, free, hdr);
      if freeList == 0 {
        freeList := hdr;
      } else if hdr < freeList {
        mem := mem[freeList := mem[freeList].(prev := hdr)];
        mem := mem[hdr := mem[hdr].(next := freeList)];
        freeList := hdr;
      } else {
        var freeNode := FindBelow(hdr, free);
        if mem[freeNode].next != 0 {
          mem := mem[hdr := mem[hdr].(next := mem[freeNode].next)];
          mem := mem[mem[freeNode].next := mem[mem[freeNode].next].(prev := hdr)];
        }
        mem := mem[freeNode := mem[freeNode].(next := hdr)];
        mem := mem[hdr := mem[hdr].(prev := freeNode)];
      }
      PutList(m0, old(freeList), free, b);
      assert mem == PutMem(m0, hdr, PrevAt(free, k), AddrAt(free, k));
    }

    /** The last node below the header; the first one is. */
    method FindBelow(hdr: nat, ghost free: seq<Block>) returns (freeNode: nat)
      requires Listed(free) && free != [] && free[0].addr < hdr
      ensures Slot(free, hdr) > 0 && freeNode == free[Slot(free, hdr) - 1].addr
    {
      ghost var j := 0;
      freeNode := freeList;
      while mem[freeNode].next != 0 && hdr > mem[freeNode].next
        invariant 0 <= j < |free| && freeNode == free[j].addr < hdr && free[j].addr in mem
        decreases |free| - j
      {
        freeNode := mem[freeNode].next;
        j := j + 1;
      }
      SlotIs(free, hdr, j + 1);
    }

    /** Merge with the node before, if they touch. */
    method MergeLower(hdr0: nat, ghost free: seq<Block>, ghost k: nat) returns (hdr: nat)
      requires Listed(free) && k < |free| && hdr0 == free[k].addr
      modifies this`mem
      ensures Others(old(mem), mem, free)
      ensures var lower := k > 0 && End(free[k - 1]) == hdr0;
        var r, k2 := if lower then JoinAt(free, k - 1) else free, if lower then k - 1 else k;
        Listed(r) && k2 < |r| && hdr == r[k2].addr
    {
      hide Nexts, Prevs, Rising, Others, JoinAt, MergeMem;
      hdr := hdr0;
      ghost var m0 := mem;
      NodeAt(mem, freeList, free, k);
      if k > 0 {
        NodeAt(mem, freeList, free, k - 1);
      }
      OthersSame(mem, free);
      if mem[hdr].prev != 0 && mem[hdr].prev + HEADER + mem[mem[hdr].prev].size == hdr {
        var prev := mem[hdr].prev;
        mem := mem[prev := mem[prev].(size := mem[prev].size + mem[hdr].size + HEADER)];
        mem := mem[prev := mem[prev].(next := mem[hdr].next)];
        if mem[hdr].next != 0 {
          mem := mem[mem[hdr].next := mem[mem[hdr].next].(prev := mem[hdr].prev)];
        }
        hdr := mem[hdr].prev;
        MergeList(m0, freeList, free, k - 1, true);
        MergeMemIs(m0, prev, hdr0, true);
        JoinedHere(free, k - 1);
      }
    }

    /** Merge with the node after, if they touch: as written, or with the backward link mended. */
    method MergeUpper(hdr: nat, repaired: bool, ghost free: seq<Block>, ghost k: nat)
      requires Listed(free) && k < |free| && hdr == free[k].addr
      modifies this`mem
      ensures Others(old(mem), mem, free)
      ensures var upper := k + 1 < |free| && End(free[k]) == free[k + 1].addr;
        var r := if upper then JoinAt(free, k) else free;
        && Nexts(mem, freeList, r) && Rising(r)
        && (Prevs(mem, r) <==> !upper || repaired || k + 2 == |free|)
    {
      hide Nexts, Prevs, Rising, Others, JoinAt, MergeMem;
      ghost var m0 := mem;
      NodeAt(mem, freeList, free, k);
      if k + 1 < |free| {
        NodeAt(mem, freeList, free, k + 1);
      }
      OthersSame(mem, free);
      if mem[hdr].next != 0 && hdr + HEADER + mem[hdr].size == mem[hdr].next {
        var next := mem[hdr].next;
        if k + 2 < |free| {
          NodeAt(mem, freeList, free, k + 2);
        }
        mem := mem[hdr := mem[hdr].(size := mem[hdr].size + mem[next].size + HEADER)];
        mem := mem[hdr := mem[hdr].(next := mem[next].next)];
        if repaired {
          if mem[hdr].next != 0 {
            mem := mem[mem[hdr].next := mem[mem[hdr].next].(prev := hdr)];
          }
        } else if mem[hdr].next != 0 && mem[mem[hdr].next].next != 0 {
          mem := mem[mem[mem[hdr].next].next := mem[mem[mem[hdr].next].next].(prev := hdr)];
        }
        MergeList(m0, freeList, free, k, repaired);
        MergeMemIs(m0, hdr, next, repaired);
      }
    }

    /** Put the header in and merge it on both sides. */
    method GiveBack(hdr0: nat, repaired: bool, ghost free: seq<Block>, ghost b: Block)
      requires Listed(free) && b.addr == hdr0 > 0 && hdr0 in mem && mem[hdr0].size == b.size && mem[hdr0].next == 0
      requires mem[hdr0].prev == 0
      requires forall i :: 0 <= i < |free| ==> free[i].addr != hdr0
      modifies this`mem, this`freeList
      ensures Nexts(mem, freeList, Release(free, b)) && Rising(Release(free, b))
      ensures Prevs(mem, Release(free, b)) <==> repaired || !OvertakesIn(free, b)
      ensures var k := Slot(free, hdr0); Others(old(mem), mem, free[..k] + [b] + free[k..])
    {
      hide Nexts, Prevs, Rising, Others, Release, Slot, JoinAt, OvertakesIn;
      ghost var k, m1 := Slot(free, hdr0), mem;
      ghost var f1 := free[..k] + [b] + free[k..];
      ReleaseSteps(free, b);
      OvertakesIs(free, b);
      PutIn(hdr0, free, b);
      ghost var m2 := mem;
      var hdr := MergeLower(hdr0, f1, k);
      ghost var lower := k > 0 && End(f1[k - 1]) == b.addr;
      ghost var f2, k2 := if lower then JoinAt(f1, k - 1) else f1, if lower then k - 1 else k;
      ghost var m3 := mem;
      MergeUpper(hdr, repaired, f2, k2);
      OthersThroughout(m1, m2, m3, mem, f1, k, lower);
    }

    /**
     kfree(): nothing happens unless the pointer is marked as allocated. As written the
     list is right forwards, but backwards only if the block does not overtake another.
     */
    method Kfree(ptr: nat, repaired: bool, ghost start: nat)
      requires Valid(start) && ptr >= HEADER
      modifies this
      ensures h == Free(old(h), ptr - HEADER) && Inv(h, start)
      ensures Nexts(mem, freeList, h.free) && Marked(mem, h.live) && Rising(h.free)
      ensures Prevs(mem, h.free) <==> repaired || !Overtakes(old(h), ptr - HEADER)
    {
      hide Nexts, Prevs, Rising, Inv, Others, Release, OvertakesIn;
      var hdr := ptr - HEADER;
      FreeInv(h, start, hdr);
      if hdr in mem && mem[hdr].sane == ptr {
        ghost var h0, b := h, Block(hdr, h.live[hdr]);
        LiveApart(h, start, hdr);
        mem := mem[hdr := mem[hdr].(next := 0, prev := 0, sane := 0)];
        ghost var m1 := mem;
        ResetKeeps(old(mem), mem, freeList, h, start, hdr);
        GiveBack(hdr, repaired, h.free, b);
        h := Free(h0, hdr);
        MarksKept(m1, mem, h0, start, hdr);
      }
    }
  }

  /** What merging leaves in memory; as written, the wrong node is told who comes before it. */
  function MergeMem(m: Memory, lo: nat, hi: nat, repaired: bool): Memory
    requires lo in m && hi in m && (m[hi].next == 0 || m[hi].next in m)
    requires m[hi].next != 0 && m[m[hi].next].next != 0 ==> m[m[hi].next].next in m
  {
    var m1 := m[lo := m[lo].(size := m[lo].size + m[hi].size + HEADER, next := m[hi].next)];
    var n := m[hi].next;
    if n == 0 then m1
    else if repaired then m1[n := m1[n].(prev := lo)]
    else if m1[n].next == 0 then m1 else m1[m1[n].next := m1[m1[n].next].(prev := lo)]
  }

  lemma MergeMemIs(m: Memory, lo: nat, hi: nat, repaired: bool)
    requires lo in m && hi in m && (m[hi].next == 0 || m[hi].next in m)
    requires m[hi].next != 0 && m[m[hi].next].next != 0 ==> m[m[hi].next].next in m
    requires lo != hi
    ensures var m1 := m[lo := m[lo].(size := m[lo].size + m[hi].size + HEADER)];
      var m2, n := m1[lo := m1[lo].(next := m1[hi].next)], m[hi].next;
      && (n == 0 ==> MergeMem(m, lo, hi, repaired) == m2)
      && (n != 0 && repaired ==> MergeMem(m, lo, hi, repaired) == m2[n := m2[n].(prev := lo)])
      && (n != 0 && !repaired && m2[n].next == 0 ==> MergeMem(m, lo, hi, repaired) == m2)
      && (n != 0 && !repaired && m2[n].next != 0 ==>
            MergeMem(m, lo, hi, repaired) == m2[m2[n].next := m2[m2[n].next].(prev := lo)])
  {
  }

  lemma OthersSame(m: Memory, free: seq<Block>)
    ensures Others(m, m, free)
  {
  }

  lemma MergeList(m: Memory, freeList: nat, free: seq<Block>, k: nat, repaired: bool)
    requires Nexts(m, freeList, free) && Prevs(m, free) && Rising(free) && k + 1 < |free|
    ensures var lo, hi := free[k].addr, free[k + 1].addr;
      && lo in m && hi in m && (m[hi].next == 0 || m[hi].next in m)
      && (m[hi].next != 0 && m[m[hi].next].next != 0 ==> m[m[hi].next].next in m)
      && var r := MergeMem(m, lo, hi, repaired);
        && Nexts(r, freeList, JoinAt(free, k)) && Rising(JoinAt(free, k)) && Others(m, r, free)
        && (Prevs(r, JoinAt(free, k)) <==> repaired || k + 2 == |free|)
  {
    hide Nexts, Prevs, Rising, JoinAt;
    NodeAt(m, freeList, free, k);
    NodeAt(m, freeList, free, k + 1);
    if k + 2 < |free| {
      NodeAt(m, freeList, free, k + 2);
    }
    var lo, hi := free[k].addr, free[k + 1].addr;
    var r := MergeMem(m, lo, hi, repaired);
    forall i {:trigger free[i]} | 0 <= i < |free|
      ensures free[i].addr in m && free[i].addr in r
      ensures r[free[i].addr].size ==
        if i == k then free[k].size + free[k + 1].size + HEADER else m[free[i].addr].size
      ensures r[free[i].addr].next == (if i == k then m[hi].next else m[free[i].addr].next)
      ensures r[free[i].addr].prev ==
        if i == k + 2 && repaired then lo else if i == k + 3 && !repaired then lo else m[free[i].addr].prev
    {
      MergeAt(m, freeList, free, k, repaired, i);
    }
    JoinedNexts(m, r, freeList, free, k);
    JoinedPrevs(m, r, free, k);
    JoinRising(free, k);
  }

  lemma MergeAt(m: Memory, freeList: nat, free: seq<Block>, k: nat, repaired: bool, i: nat)
    requires Nexts(m, freeList, free) && Prevs(m, free) && Rising(free) && k + 1 < |free| && i < |free|
    ensures var lo, hi, x := free[k].addr, free[k + 1].addr, free[i].addr;
      && lo in m && hi in m && x in m && (m[hi].next == 0 || m[hi].next in m)
      && (m[hi].next != 0 && m[m[hi].next].next != 0 ==> m[m[hi].next].next in m)
      && var r := MergeMem(m, lo, hi, repaired);
        && x in r && r[x].size == (if i == k then free[k].size + free[k + 1].size + HEADER else m[x].size)
        && r[x].next == (if i == k then m[hi].next else m[x].next)
        && r[x].prev == (if i == k + 2 && repaired then lo else if i == k + 3 && !repaired then lo else m[x].prev)
  {
    hide Nexts, Prevs, MergeMem;
    NodeAt(m, freeList, free, k);
    NodeAt(m, freeList, free, k + 1);
    NodeAt(m, freeList, free, i);
    if k + 2 < |free| {
      NodeAt(m, freeList, free, k + 2);
    }
    var x := free[i].addr;
    assert x == free[k].addr <==> i == k;
    assert k + 2 < |free| ==> (x == free[k + 2].addr <==> i == k + 2) && free[k + 2].addr > free[k].addr;
    assert k + 3 < |free| ==> (x == free[k + 3].addr <==> i == k + 3) && free[k + 3].addr > free[k].addr;
    hide Rising;
    MergeMemAt(m, free[k].addr, free[k + 1].addr, repaired, x);
  }

  lemma MergeMemAt(m: Memory, lo: nat, hi: nat, repaired: bool, x: nat)
    requires lo in m && hi in m && x in m && lo < hi && (m[hi].next == 0 || (m[hi].next in m && m[hi].next > hi))
    requires m[hi].next != 0 && m[m[hi].next].next != 0 ==> m[m[hi].next].next in m && m[m[hi].next].next > hi
    ensures var r, n := MergeMem(m, lo, hi, repaired), m[hi].next;
      && x in r && r[x].size == (if x == lo then m[lo].size + m[hi].size + HEADER else m[x].size)
      && r[x].next == (if x == lo then n else m[x].next)
      && r[x].prev == (if repaired && n != 0 && x == n then lo
                       else if !repaired && n != 0 && m[n].next != 0 && x == m[n].next then lo else m[x].prev)
  {
  }

  lemma JoinedHere(free: seq<Block>, k: nat)
    requires k + 1 < |free|
    ensures JoinAt(free, k)[k].addr == free[k].addr
  {
  }

  lemma JoinRising(free: seq<Block>, k: nat)
    requires Rising(free) && k + 1 < |free|
    ensures Rising(JoinAt(free, k))
  {
    var r := JoinAt(free, k);
    forall i | 0 <= i < |r|
      ensures r[i].addr == free[if i <= k then i else i + 1].addr
    {
    }
  }

  /** The header hdr between the nodes prev and next. */
  function PutMem(m: Memory, hdr: nat, prev: nat, next: nat): Memory
    requires hdr in m && (prev == 0 || prev in m) && (next == 0 || next in m)
  {
    var m1 := m[hdr := m[hdr].(prev := prev, next := next)];
    var m2 := if next != 0 then m1[next := m1[next].(prev := hdr)] else m1;
    if prev != 0 then m2[prev := m2[prev].(next := hdr)] else m2
  }

  /** The nodes on both sides of the slot for an address. */
  lemma SlotNodes(mem: Memory, freeList: nat, free: seq<Block>, a: nat)
    requires Nexts(mem, freeList, free) && Prevs(mem, free) && Rising(free) && a > 0
    requires forall i :: 0 <= i < |free| ==> free[i].addr != a
    ensures var k := Slot(free, a);
      var prev, next := PrevAt(free, k), AddrAt(free, k);
      && (prev == 0 || (prev in mem && prev < a && mem[prev].next == next)) && (next == 0 || (next in mem && a < next))
      && (prev == 0 <==> k == 0) && (freeList == 0 <==> free == []) && (k == 0 ==> next == freeList)
      && (freeList != 0 ==> (a < freeList <==> k == 0))
      && (free != [] ==> free[0].addr == freeList)
  {
    var k := Slot(free, a);
    assert k > 0 ==> free[k - 1].addr in mem;
    assert k < |free| ==> free[k].addr in mem;
    assert k > 1 ==> free[0].addr < free[k - 1].addr;
  }

  /** The list after the header was put in. */
  lemma PutList(m0: Memory, head: nat, free: seq<Block>, b: Block)
    requires Nexts(m0, head, free) && Prevs(m0, free) && Rising(free) && b.addr > 0
    requires b.addr in m0 && m0[b.addr].size == b.size && forall i :: 0 <= i < |free| ==> free[i].addr != b.addr
    ensures var k := Slot(free, b.addr);
      var prev, next, r := PrevAt(free, k), AddrAt(free, k), free[..k] + [b] + free[k..];
      && (prev == 0 || prev in m0) && (next == 0 || next in m0)
      && var m := PutMem(m0, b.addr, prev, next);
        && Nexts(m, if k == 0 then b.addr else head, r) && Prevs(m, r) && Rising(r) && Others(m0, m, r)
  {
    hide Slot, Nexts, Prevs, Others, PutMem;
    var k := Slot(free, b.addr);
    var prev, next, r := PrevAt(free, k), AddrAt(free, k), free[..k] + [b] + free[k..];
    SlotNodes(m0, head, free, b.addr);
    var m := PutMem(m0, b.addr, prev, next);
    RisingInsert(free, b);
    forall i {:trigger free[i]} | 0 <= i < |free|
      ensures free[i].addr in m0 && free[i].addr in m && m[free[i].addr].size == m0[free[i].addr].size
      ensures m[free[i].addr].next == (if i + 1 == k then b.addr else m0[free[i].addr].next)
      ensures m[free[i].addr].prev == (if i == k then b.addr else m0[free[i].addr].prev)
    {
      PutOther(m0, head, free, b.addr, i);
    }
    assert k > 0 ==> free[k - 1].addr < b.addr;
    assert k < |free| ==> b.addr < free[k].addr;
    PutOthers(m0, b.addr, prev, next, r, k);
    PutAt(m0, b.addr, prev, next);
    Inserted(m0, m, head, free, k, b);
  }

  lemma PutAt(m: Memory, hdr: nat, prev: nat, next: nat)
    requires hdr in m && (prev == 0 || (prev in m && prev != hdr)) && (next == 0 || (next in m && next != hdr))
    ensures var r := PutMem(m, hdr, prev, next);
      hdr in r && r[hdr] == m[hdr].(prev := prev, next := next)
  {
  }

  lemma PutOther(m0: Memory, head: nat, free: seq<Block>, a: nat, i: nat)
    requires Nexts(m0, head, free) && Prevs(m0, free) && Rising(free) && a > 0 && a in m0
    requires (forall i :: 0 <= i < |free| ==> free[i].addr != a) && i < |free|
    ensures var k, x := Slot(free, a), free[i].addr;
      var prev, next := PrevAt(free, k), AddrAt(free, k);
      && (prev == 0 || prev in m0) && (next == 0 || next in m0) && x in m0
      && var m := PutMem(m0, a, prev, next);
        && x in m && m[x].size == m0[x].size
        && m[x].next == (if i + 1 == k then a else m0[x].next) && m[x].prev == (if i == k then a else m0[x].prev)
  {
    hide Slot, Nexts, Prevs, PutMem;
    var k, x := Slot(free, a), free[i].addr;
    SlotNodes(m0, head, free, a);
    NodeAt(m0, head, free, i);
    assert (k > 0 ==> (x == free[k - 1].addr <==> i + 1 == k)) && (k < |free| ==> (x == free[k].addr <==> i == k));
    hide Rising;
    PutMemAt(m0, a, PrevAt(free, k), AddrAt(free, k), x);
  }

  lemma PutMemAt(m: Memory, hdr: nat, prev: nat, next: nat, x: nat)
    requires hdr in m && (prev == 0 || prev in m) && (next == 0 || next in m) && prev != hdr && next != hdr
    requires x in m && x != hdr && x != 0 && (prev == next ==> prev == 0)
    ensures var r := PutMem(m, hdr, prev, next);
      x in r && r[x] == if x == prev then m[x].(next := hdr) else if x == next then m[x].(prev := hdr) else m[x]
  {
  }

  lemma RisingInsert(free: seq<Block>, b: Block)
    requires Rising(free) && b.addr > 0 && forall i :: 0 <= i < |free| ==> free[i].addr != b.addr
    ensures var k := Slot(free, b.addr); Rising(free[..k] + [b] + free[k..])
  {
    hide Slot;
    var k := Slot(free, b.addr);
    SlotNext(free, b.addr);
    RisingAround(free, k, b);
  }

  lemma SlotNext(free: seq<Block>, a: nat)
    requires forall i :: 0 <= i < |free| ==> free[i].addr != a
    ensures Slot(free, a) < |free| ==> a < free[Slot(free, a)].addr
    ensures forall i :: 0 <= i < Slot(free, a) ==> free[i].addr < a
  {
  }

  lemma RisingAround(free: seq<Block>, k: nat, b: Block)
    requires Rising(free) && b.addr > 0 && k <= |free| && (forall i :: 0 <= i < k ==> free[i].addr < b.addr)
    requires k < |free| ==> b.addr < free[k].addr
    ensures Rising(free[..k] + [b] + free[k..])
  {
    var r := free[..k] + [b] + free[k..];
    forall i, j | 0 <= i < j < |r|
      ensures r[i].addr < r[j].addr
    {
      if j < k {
        assert free[i].addr < free[j].addr;
      } else if i < k && j > k {
        assert free[i].addr < free[j - 1].addr;
      } else if i == k {
        assert j - 1 > k ==> free[k].addr < free[j - 1].addr;
      } else if i > k {
        assert free[i - 1].addr < free[j - 1].addr;
      }
    }
  }

  lemma PutOthers(m: Memory, hdr: nat, prev: nat, next: nat, r: seq<Block>, k: nat)
    requires hdr in m && (prev == 0 || prev in m) && (next == 0 || next in m)
    requires k < |r| && r[k].addr == hdr && prev == PrevAt(r, k) && next == AddrAt(r, k + 1)
    ensures Others(m, PutMem(m, hdr, prev, next), r)
  {
  }

  /**
   What a split writes before the node is taken: the header of the rest, and the backward
   link of the node after it.
   */
  function WithRest(mem: Memory, node: nat, nextNode: nat, rmdSize: nat): Memory
    requires node in mem && (mem[node].next == 0 || mem[node].next in mem)
  {
    var m1 := mem[nextNode := Header(rmdSize, 0, mem[node].next, if nextNode in mem then mem[nextNode].sane else 0)];
    if mem[node].next != 0 then m1[mem[node].next := m1[mem[node].next].(prev := nextNode)] else m1
  }

  /** The memory kmalloc leaves when it takes `amount` bytes of a node. */
  function Final(mem: Memory, node: nat, amount: nat): Memory
    requires node in mem && amount <= mem[node].size
    requires (mem[node].next == 0 || mem[node].next in mem) && (mem[node].prev == 0 || mem[node].prev in mem)
  {
    var split := mem[node].size > amount + HEADER;
    var nextNode := if split then node + HEADER + amount else mem[node].next;
    var m1 := if split then WithRest(mem, node, nextNode, mem[node].size - amount - HEADER) else mem;
    var m2 := if nextNode != 0 then m1[nextNode := m1[nextNode].(prev := m1[node].prev)] else m1;
    var m3 := if m2[node].prev != 0 then m2[m2[node].prev := m2[m2[node].prev].(next := nextNode)] else m2;
    m3[node := Header(amount, 0, 0, node + HEADER)]
  }

  lemma RestIs(mem: Memory, freeList: nat, free: seq<Block>, k: nat, amount: nat)
    requires Nexts(mem, freeList, free) && Prevs(mem, free) && Rising(free) && k < |free| && free[k].size >= amount
    requires forall x, i :: free[k].addr < x < End(free[k]) && 0 <= i < |free| ==> Other(free[i], x)
    ensures var node, nn := free[k].addr, free[k].addr + HEADER + amount;
      && node in mem && (mem[node].next == 0 || mem[node].next in mem)
      && (free[k].size > amount + HEADER ==> nn != mem[node].next && nn != mem[node].prev && nn != node)
  {
    NodeAt(mem, freeList, free, k);
    hide Nexts, Prevs, Rising;
    var nn := free[k].addr + HEADER + amount;
    assert free[k].size > amount + HEADER && k + 1 < |free| ==> Other(free[k + 1], nn);
    assert free[k].size > amount + HEADER && k > 0 ==> Other(free[k - 1], nn);
  }

  /** Every header after kmalloc, by its place. */
  lemma FinalAt(m0: Memory, node: nat, amount: nat, x: nat)
    requires node in m0 && amount <= m0[node].size
    requires (m0[node].next == 0 || (m0[node].next in m0 && m0[node].next > node))
    requires (m0[node].prev == 0 || (m0[node].prev in m0 && m0[node].prev < node))
    requires m0[node].size > amount + HEADER ==> node + HEADER + amount != m0[node].next
    ensures var m := Final(m0, node, amount);
      var split, nn := m0[node].size > amount + HEADER, node + HEADER + amount;
      var next, prev := m0[node].next, m0[node].prev;
      && (x in m <==> x in m0 || (split && x == nn))
      && m[node] == Header(amount, 0, 0, node + HEADER)
      && (split ==> m[nn] == Header(m0[node].size - amount - HEADER, prev, next, if nn in m0 then m0[nn].sane else 0))
      && (next != 0 ==> m[next] == m0[next].(prev := if split then nn else prev))
      && (prev != 0 && (split ==> prev != nn) ==> m[prev] == m0[prev].(next := if split then nn else next))
      && (x in m0 && x != node && !(split && x == nn) && (next == 0 || x != next) && (prev == 0 || x != prev) ==>
            m[x] == m0[x])
  {
  }

  predicate Other(b: Block, x: nat) {
    b.addr != x
  }

  /** The list after its k-th block was split. */
  lemma SplitList(m0: Memory, m: Memory, head: nat, free: seq<Block>, k: nat, rest: Block)
    requires Nexts(m0, head, free) && Prevs(m0, free) && Rising(free) && k < |free|
    requires rest.addr in m && m[rest.addr].size == rest.size && m[rest.addr].prev == PrevAt(free, k)
    requires m[rest.addr].next == AddrAt(free, k + 1)
    requires forall i {:trigger free[i]} :: 0 <= i < |free| && i != k ==>
      && free[i].addr in m && m[free[i].addr].size == m0[free[i].addr].size
      && m[free[i].addr].next == (if i + 1 == k then rest.addr else m0[free[i].addr].next)
      && m[free[i].addr].prev == (if i == k + 1 then rest.addr else m0[free[i].addr].prev)
    ensures Nexts(m, if k == 0 then rest.addr else head, free[k := rest]) && Prevs(m, free[k := rest])
  {
    var r := free[k := rest];
    forall i {:trigger r[i]} | 0 <= i < |r|
      ensures r[i].addr in m && m[r[i].addr].size == r[i].size
      ensures m[r[i].addr].next == AddrAt(r, i + 1) && m[r[i].addr].prev == PrevAt(r, i)
    {
      assert free[i].addr in m0;
    }
  }

  /** The list after its k-th block was taken whole. */
  lemma RemovedList(m0: Memory, m: Memory, head: nat, free: seq<Block>, k: nat)
    requires Nexts(m0, head, free) && Prevs(m0, free) && Rising(free) && k < |free|
    requires forall i {:trigger free[i]} :: 0 <= i < |free| && i != k ==>
      && free[i].addr in m && m[free[i].addr].size == m0[free[i].addr].size
      && m[free[i].addr].next == (if i + 1 == k then AddrAt(free, k + 1) else m0[free[i].addr].next)
      && m[free[i].addr].prev == (if i == k + 1 then PrevAt(free, k) else m0[free[i].addr].prev)
    ensures var r := free[..k] + free[k + 1..];
      Nexts(m, if k == 0 then AddrAt(free, 1) else head, r) && Prevs(m, r)
  {
    var r := free[..k] + free[k + 1..];
    forall i {:trigger r[i]} | 0 <= i < |r|
      ensures r[i].addr in m && m[r[i].addr].size == r[i].size
      ensures m[r[i].addr].next == AddrAt(r, i + 1) && m[r[i].addr].prev == PrevAt(r, i)
    {
      var o := if i < k then i else i + 1;
      assert r[i] == free[o];
      RemovedNode(m0, m, head, free, k, i, o);
    }
    RemovedHead(m0, head, free, k);
  }

  lemma RemovedHead(m0: Memory, head: nat, free: seq<Block>, k: nat)
    requires Nexts(m0, head, free) && k < |free|
    ensures (if k == 0 then AddrAt(free, 1) else head) == AddrAt(free[..k] + free[k + 1..], 0)
  {
  }

  lemma RemovedNode(m0: Memory, m: Memory, head: nat, free: seq<Block>, k: nat, i: nat, o: nat)
    requires Nexts(m0, head, free) && Prevs(m0, free) && k < |free| && i + 1 < |free|
    requires o == if i < k then i else i + 1
    requires var a := free[o].addr;
      && a in m0 && a in m && m[a].size == m0[a].size
      && m[a].next == (if o + 1 == k then AddrAt(free, k + 1) else m0[a].next)
      && m[a].prev == (if o == k + 1 then PrevAt(free, k) else m0[a].prev)
    ensures var r, a := free[..k] + free[k + 1..], free[o].addr;
      a in m && m[a].size == free[o].size && m[a].next == AddrAt(r, i + 1) && m[a].prev == PrevAt(r, i)
  {
    hide Nexts, Prevs, AddrAt, PrevAt;
    NodeOf(m0, head, free, o);
    WithoutAddrs(free, k, i);
  }

  lemma NodeOf(m: Memory, head: nat, free: seq<Block>, i: nat)
    requires Nexts(m, head, free) && Prevs(m, free) && i < |free|
    ensures free[i].addr in m && m[free[i].addr].size == free[i].size
    ensures m[free[i].addr].next == AddrAt(free, i + 1) && m[free[i].addr].prev == PrevAt(free, i)
  {
  }

  /** The neighbours in a list without its k-th block. */
  lemma WithoutAddrs(free: seq<Block>, k: nat, i: nat)
    requires k < |free|
    ensures var r := free[..k] + free[k + 1..];
      && AddrAt(r, i) == AddrAt(free, if i < k then i else i + 1)
      && AddrAt(r, i + 1) == AddrAt(free, if i + 1 < k then i + 1 else i + 2)
      && PrevAt(r, i) == PrevAt(free, if i <= k then i else i + 1)
  {
  }

  /** Another free block's header after kmalloc. */
  lemma FinalOther(m0: Memory, head: nat, free: seq<Block>, k: nat, amount: nat, i: nat)
    requires Nexts(m0, head, free) && Prevs(m0, free) && Rising(free) && k < |free| && free[k].size >= amount
    requires i < |free| && i != k
    requires forall x, i :: free[k].addr < x < End(free[k]) && 0 <= i < |free| ==> Other(free[i], x)
    ensures var node, x := free[k].addr, free[i].addr;
      && node in m0 && m0[node].size == free[k].size && x in m0
      && (m0[node].next == 0 || m0[node].next in m0) && (m0[node].prev == 0 || m0[node].prev in m0)
      && var m, split, nn := Final(m0, node, amount), free[k].size > amount + HEADER, node + HEADER + amount;
        && x in m && m[x].size == m0[x].size
        && m[x].next == (if i + 1 == k then (if split then nn else AddrAt(free, k + 1)) else m0[x].next)
        && m[x].prev == (if i == k + 1 then (if split then nn else PrevAt(free, k)) else m0[x].prev)
  {
    var node, x, nn := free[k].addr, free[i].addr, free[k].addr + HEADER + amount;
    NodeAt(m0, head, free, k);
    NodeAt(m0, head, free, i);
    RestIs(m0, head, free, k, amount);
    assert x != node && (x == AddrAt(free, k + 1) <==> i == k + 1) && (x == PrevAt(free, k) <==> i + 1 == k);
    assert free[k].size > amount + HEADER ==> Other(free[i], nn);
    hide Nexts, Prevs, Rising, Final;
    FinalAt(m0, node, amount, x);
  }

  lemma TakenList(m0: Memory, head: nat, free: seq<Block>, k: nat, amount: nat)
    requires Nexts(m0, head, free) && Prevs(m0, free) && Rising(free) && k < |free| && free[k].size >= amount
    requires forall x, i :: free[k].addr < x < End(free[k]) && 0 <= i < |free| ==> Other(free[i], x)
    ensures var node := free[k].addr;
      && node in m0 && m0[node].size == free[k].size
      && (m0[node].next == 0 || m0[node].next in m0) && (m0[node].prev == 0 || m0[node].prev in m0)
      && var m, r := Final(m0, node, amount), Take(free, k, amount);
        && Nexts(m, if k > 0 then head
                    else if free[k].size > amount + HEADER then node + HEADER + amount else m0[node].next, r)
        && Prevs(m, r)
  {
    hide Nexts, Prevs, Rising, Final;
    var node, nn := free[k].addr, free[k].addr + HEADER + amount;
    NodeAt(m0, head, free, k);
    RestIs(m0, head, free, k, amount);
    var m := Final(m0, node, amount);
    forall i {:trigger free[i]} | 0 <= i < |free| && i != k
      ensures free[i].addr in m0 && free[i].addr in m && m[free[i].addr].size == m0[free[i].addr].size
      ensures m[free[i].addr].next ==
        if i + 1 != k then m0[free[i].addr].next
        else if free[k].size > amount + HEADER then nn else AddrAt(free, k + 1)
      ensures m[free[i].addr].prev ==
        if i != k + 1 then m0[free[i].addr].prev
        else if free[k].size > amount + HEADER then nn else PrevAt(free, k)
    {
      FinalOther(m0, head, free, k, amount, i);
    }
    FinalAt(m0, node, amount, nn);
    if free[k].size > amount + HEADER {
      SplitList(m0, m, head, free, k, Block(nn, free[k].size - amount - HEADER));
    } else {
      RemovedList(m0, m, head, free, k);
    }
  }

  lemma TakenMarks(m0: Memory, head: nat, h: Heap, start: nat, k: nat, amount: nat)
    requires Inv(h, start) && Marked(m0, h.live) && Nexts(m0, head, h.free) && Prevs(m0, h.free) && Rising(h.free)
    requires k < |h.free| && h.free[k].size >= amount
    requires forall x, i :: h.free[k].addr < x < End(h.free[k]) && 0 <= i < |h.free| ==> Other(h.free[i], x)
    requires forall x :: h.free[k].addr <= x < End(h.free[k]) ==> x !in h.live
    ensures var node := h.free[k].addr;
      && node in m0 && m0[node].size == h.free[k].size
      && (m0[node].next == 0 || m0[node].next in m0) && (m0[node].prev == 0 || m0[node].prev in m0)
      && Marked(Final(m0, node, amount), h.live[node := amount])
  {
    hide Nexts, Prevs, Rising, Final, Inv;
    var node, nn, free := h.free[k].addr, h.free[k].addr + HEADER + amount, h.free;
    NodeAt(m0, head, free, k);
    RestIs(m0, head, free, k, amount);
    var m := Final(m0, node, amount);
    if k + 1 < |free| {
      FreeNotLive(h, start, k + 1);
    }
    if k > 0 {
      FreeNotLive(h, start, k - 1);
    }
    assert free[k].size > amount + HEADER ==> nn !in h.live;
    forall x | x in m
      ensures m[x].sane == x + HEADER <==> x in h.live || x == node
    {
      FinalAt(m0, node, amount, x);
      if x in m0 && x != node {
        assert m[x].sane == m0[x].sane;
      }
    }
    forall x | x in h.live
      ensures x in m && m[x].size == h.live[x]
    {
      FinalAt(m0, node, amount, x);
    }
    FinalAt(m0, node, amount, node);
  }

  lemma FreeNotLive(h: Heap, start: nat, i: nat)
    requires Inv(h, start) && i < |h.free|
    ensures h.free[i].addr !in h.live
  {
    if i < |h.free| {
      assert h.free[i].addr in h.live ==> Apart(Block(h.free[i].addr, h.live[h.free[i].addr]), h.free[i]);
    }
  }

  /** The rest of a split block is neither a listed nor an allocated one. */
  lemma NewNodeApart(h: Heap, start: nat, k: nat)
    requires Inv(h, start) && k < |h.free|
    ensures forall x, i :: h.free[k].addr < x < End(h.free[k]) && 0 <= i < |h.free| ==> Other(h.free[i], x)
    ensures forall x :: h.free[k].addr <= x < End(h.free[k]) ==> x !in h.live
  {
    forall x, i | h.free[k].addr < x < End(h.free[k]) && 0 <= i < |h.free|
      ensures Other(h.free[i], x)
    {
      assert i < k ==> End(h.free[i]) < h.free[k].addr;
      assert k < i ==> End(h.free[k]) < h.free[i].addr;
    }
    forall x | h.free[k].addr <= x < End(h.free[k])
      ensures x !in h.live
    {
      assert x in h.live ==> Apart(Block(x, h.live[x]), h.free[k]);
    }
  }

  /** A node and its neighbours in memory. */
  lemma NodeAt(mem: Memory, freeList: nat, free: seq<Block>, k: nat)
    requires Nexts(mem, freeList, free) && Prevs(mem, free) && Rising(free) && k < |free|
    ensures free[k].addr in mem && mem[free[k].addr].size == free[k].size
    ensures mem[free[k].addr].next == AddrAt(free, k + 1) && mem[free[k].addr].prev == PrevAt(free, k)
    ensures AddrAt(free, k + 1) != 0 ==> AddrAt(free, k + 1) in mem && free[k].addr < AddrAt(free, k + 1)
    ensures PrevAt(free, k) != 0 ==> PrevAt(free, k) in mem && PrevAt(free, k) < free[k].addr
    ensures k > 0 <==> PrevAt(free, k) != 0
  {
    assert k + 1 < |free| ==> free[k + 1].addr in mem;
    assert k > 0 ==> free[k - 1].addr in mem;
  }

  /** A live block is none of the free ones, and its header is in memory. */
  lemma LiveApart(h: Heap, start: nat, a: nat)
    requires Inv(h, start) && a in h.live
    ensures a > 0 && forall i :: 0 <= i < |h.free| ==> h.free[i].addr != a
  {
    forall i | 0 <= i < |h.free|
      ensures h.free[i].addr != a
    {
      FreeNotLive(h, start, i);
    }
  }

  lemma ResetKeeps(m: Memory, m': Memory, freeList: nat, h: Heap, start: nat, a: nat)
    requires Inv(h, start) && Nexts(m, freeList, h.free) && Prevs(m, h.free) && a in h.live && a in m
    requires m' == m[a := m[a].(next := 0, prev := 0, sane := 0)]
    ensures Nexts(m', freeList, h.free) && Prevs(m', h.free)
  {
    LiveApart(h, start, a);
  }

  lemma OvertakesIs(free: seq<Block>, b: Block)
    ensures var k := Slot(free, b.addr);
      var f1 := free[..k] + [b] + free[k..];
      var lower := k > 0 && End(f1[k - 1]) == b.addr;
      var f2, k2 := if lower then JoinAt(f1, k - 1) else f1, if lower then k - 1 else k;
      && k2 < |f2|
      && (OvertakesIn(free, b) <==> k2 + 1 < |f2| && End(f2[k2]) == f2[k2 + 1].addr && k2 + 2 != |f2|)
  {
    hide Slot;
    var k := Slot(free, b.addr);
    var f1 := free[..k] + [b] + free[k..];
    assert k > 0 ==> f1[k - 1] == free[k - 1];
    if k > 0 && End(f1[k - 1]) == b.addr {
      var b1 := Join(free[k - 1], b);
      assert JoinAt(f1, k - 1) == free[..k - 1] + [b1] + free[k..];
    }
  }

  predicate HasAddr(free: seq<Block>, x: nat) {
    exists i :: 0 <= i < |free| && free[i].addr == x
  }

  /** Headers outside the list keep everything through two changes. */
  lemma OthersTwice(m1: Memory, m2: Memory, m3: Memory, f: seq<Block>, g: seq<Block>)
    requires Others(m1, m2, f) && Others(m2, m3, g) && forall i :: 0 <= i < |g| ==> HasAddr(f, g[i].addr)
    ensures Others(m1, m3, f)
  {
    forall a | a in m1 && (forall i :: 0 <= i < |f| ==> f[i].addr != a)
      ensures m3[a] == m1[a]
    {
      forall i | 0 <= i < |g|
        ensures g[i].addr != a
      {
        assert HasAddr(f, g[i].addr);
      }
    }
  }

  lemma OthersThroughout(m1: Memory, m2: Memory, m3: Memory, m4: Memory, f: seq<Block>, k: nat, lower: bool)
    requires k < |f| && (lower ==> k > 0) && Others(m1, m2, f) && Others(m2, m3, f)
    requires Others(m3, m4, if lower then JoinAt(f, k - 1) else f)
    ensures Others(m1, m4, f)
  {
    hide Others, JoinAt;
    SameAddrs(f);
    OthersTwice(m1, m2, m3, f, f);
    OthersTwice(m1, m3, m4, f, if lower then JoinAt(f, k - 1) else f);
  }

  lemma SameAddrs(f: seq<Block>)
    ensures forall i :: 0 <= i < |f| ==> HasAddr(f, f[i].addr)
    ensures forall k, i :: 0 <= k < |f| - 1 && 0 <= i < |f| - 1 ==> HasAddr(f, JoinAt(f, k)[i].addr)
  {
    forall k, i | 0 <= k < |f| - 1 && 0 <= i < |f| - 1
      ensures HasAddr(f, JoinAt(f, k)[i].addr)
    {
      assert JoinAt(f, k)[i].addr == f[if i <= k then i else i + 1].addr;
    }
  }

  /** The marks after a block was put in and merged. */
  lemma MarksKept(m1: Memory, m4: Memory, h: Heap, start: nat, a: nat)
    requires Inv(h, start) && a in h.live
    requires forall x :: x in h.live && x != a ==> x in m1 && m1[x].size == h.live[x]
    requires forall x :: x in m1 ==> (m1[x].sane == x + HEADER <==> x in h.live && x != a)
    requires var k := Slot(h.free, a); Others(m1, m4, h.free[..k] + [Block(a, h.live[a])] + h.free[k..])
    ensures Marked(m4, h.live - {a})
  {
    hide Slot, Inv;
    var k := Slot(h.free, a);
    var f1 := h.free[..k] + [Block(a, h.live[a])] + h.free[k..];
    forall x | x in h.live && x != a
      ensures x in m4 && m4[x] == m1[x]
    {
      LiveApart(h, start, x);
      Untouched(m1, m4, h.free, a, h.live[a], k, x);
    }
  }

  lemma Untouched(m: Memory, m': Memory, free: seq<Block>, a: nat, size: nat, k: nat, x: nat)
    requires k <= |free| && Others(m, m', free[..k] + [Block(a, size)] + free[k..])
    requires x in m && x != a && forall i :: 0 <= i < |free| ==> free[i].addr != x
    ensures x in m' && m'[x] == m[x]
  {
    var f1 := free[..k] + [Block(a, size)] + free[k..];
    assert forall i :: 0 <= i < |f1| ==> f1[i].addr != x;
  }

  /** Already the first block ever allocated and freed is such a block. */
  lemma FirstFreeOvertakes(freemem: nat, size: nat)
    requires 0 < freemem && 0 < size && RoundUp(freemem) + 2 * HEADER + RoundUp(size) < HOLESTART
    ensures var (h, p) := Alloc(Initial(freemem), size);
      p == RoundUp(freemem) + HEADER && Overtakes(h, p - HEADER)
  {
    var h0, start, amount := Initial(freemem), RoundUp(freemem), RoundUp(size);
    assert FirstFit(h0.free, amount) == 0;
    var rest := Block(start + HEADER + amount, h0.free[0].size - amount - HEADER);
    assert Alloc(h0, size).0.free == [rest, h0.free[1]];
    SlotIs([rest, h0.free[1]], start, 0);
  }
}

/**
 The kernel's memory allocator (c/mem.c) on values: the free list as a sequence of blocks
 and the allocated blocks as a map. First fit, headers of 16 bytes, coalescing on both sides.
 */
module Heap {
  const HEADER: nat := 16
  const HOLESTART: nat := 640 * 1024
  const HOLEEND: nat := (1024 + 600) * 1024
  const FREEMEM_END: nat := 0x400000

  /** A header at `addr` and `size` usable bytes after it. */
  datatype Block = Block(addr: nat, size: nat)

  /** free: the free list. live: the usable size of every allocated block, by header address. */
  datatype Heap = Heap(free: seq<Block>, live: map<nat, nat>)

  function End(b: Block): nat {
    b.addr + HEADER + b.size
  }

  predicate Aligned(n: int) {
    n % 16 == 0
  }

  lemma AlignedSums(a: int, b: int)
    requires Aligned(a) && Aligned(b)
    ensures Aligned(a + b) && Aligned(a + HEADER) && Aligned(a - b) && Aligned(a - HEADER)
    ensures a < b ==> a + HEADER <= b
  {
    var p, q := a / 16, b / 16;
    assert a == 16 * p && b == 16 * q;
  }

  predicate Sound(b: Block, start: nat) {
    && Aligned(b.addr) && Aligned(b.size) && b.size >= 16 && 0 < b.addr
    && ((start <= b.addr && End(b) <= HOLESTART) || (HOLEEND <= b.addr && End(b) <= FREEMEM_END))
  }

  predicate Apart(a: Block, b: Block) {
    End(a) <= b.addr || End(b) <= a.addr
  }

  /** In address order, and no two next to each other. */
  ghost predicate Ordered(free: seq<Block>) {
    forall i, j :: 0 <= i < j < |free| ==> End(free[i]) < free[j].addr
  }

  ghost predicate Inv(h: Heap, start: nat) {
    && (forall i :: 0 <= i < |h.free| ==> Sound(h.free[i], start))
    && Ordered(h.free)
    && (forall a :: a in h.live ==> Sound(Block(a, h.live[a]), start))
    && (forall a, i :: a in h.live && 0 <= i < |h.free| ==> Apart(Block(a, h.live[a]), h.free[i]))
    && (forall a, b :: a in h.live && b in h.live && a != b ==> Apart(Block(a, h.live[a]), Block(b, h.live[b])))
  }

  /** n rounded up to a multiple of 16. */
  function RoundUp(n: nat): (r: nat)
    ensures n <= r < n + 16 && Aligned(r)
  {
    (n / 16 + if n % 16 != 0 then 1 else 0) * 16
  }

  /** kmeminit(): one block on each side of the hole. */
  function Initial(freemem: nat): Heap
    requires RoundUp(freemem) + HEADER <= HOLESTART
  {
    var start := RoundUp(freemem);
    Heap([Block(start, HOLESTART - HEADER - start), Block(HOLEEND, FREEMEM_END - HOLEEND - HEADER)], map[])
  }

  lemma InitialInv(freemem: nat)
    requires 0 < freemem && RoundUp(freemem) + 2 * HEADER <= HOLESTART
    ensures Inv(Initial(freemem), RoundUp(freemem))
  {
  }

  // ------------------------------------------------------------------
  // Allocating

  /** The first block that is large enough, or |free|. */
  function FirstFit(free: seq<Block>, amount: nat): (k: nat)
    ensures k <= |free|
    ensures k < |free| ==> free[k].size >= amount
    ensures forall i :: 0 <= i < k ==> free[i].size < amount
  {
    if free == [] || free[0].size >= amount then 0 else 1 + FirstFit(free[1..], amount)
  }

  /** Take the low end of the k-th block; what is left is a block only if it has room for a header and more. */
  function Take(free: seq<Block>, k: nat, amount: nat): seq<Block>
    requires k < |free| && free[k].size >= amount
  {
    var b := free[k];
    if b.size > amount + HEADER then free[k := Block(b.addr + HEADER + amount, b.size - amount - HEADER)]
    else free[..k] + free[k + 1..]
  }

  /** kmalloc(): the new heap and the address of the data, 0 if there is none. */
  function Alloc(h: Heap, size: int): (r: (Heap, nat)) {
    if size <= 0 then (h, 0)
    else
      var amount := RoundUp(size);
      var k := FirstFit(h.free, amount);
      if k == |h.free| then (h, 0)
      else (Heap(Take(h.free, k, amount), h.live[h.free[k].addr := amount]), h.free[k].addr + HEADER)
  }

  /** The block that would be used has exactly a header's worth of bytes to spare. */
  predicate Wastes(h: Heap, size: int) {
    size > 0 &&
    var k := FirstFit(h.free, RoundUp(size));
    k < |h.free| && h.free[k].size == RoundUp(size) + HEADER
  }

  /** Of the blocks that are large enough, the k-th has the lowest address. */
  ghost predicate Lowest(free: seq<Block>, k: nat, amount: nat)
    requires k < |free|
  {
    && free[k].size >= amount
    && forall i :: 0 <= i < |free| && free[i].size >= amount ==> free[k].addr <= free[i].addr
  }

  /** kmalloc fails exactly if nothing fits, and takes the lowest-addressed block that does. */
  lemma AllocFirstFit(h: Heap, start: nat, size: int)
    requires Inv(h, start)
    ensures var (h', p) := Alloc(h, size);
      && (p == 0 <==> size <= 0 || forall i :: 0 <= i < |h.free| ==> h.free[i].size < RoundUp(size))
      && (p == 0 ==> h' == h)
      && (p != 0 ==> exists k :: 0 <= k < |h.free| && Lowest(h.free, k, RoundUp(size)) && p == h.free[k].addr + HEADER)
  {
    if size > 0 {
      var k := FirstFit(h.free, RoundUp(size));
      if k < |h.free| {
        assert Lowest(h.free, k, RoundUp(size)) by {
        forall i | 0 <= i < |h.free| && h.free[i].size >= RoundUp(size)
          ensures h.free[k].addr <= h.free[i].addr
        {
          assert i >= k && (i > k ==> End(h.free[k]) < h.free[i].addr);
        }
        }
      }
    }
  }

  /** The block handed out holds what was asked for, with less than 16 bytes to spare; the others stay as they are. */
  lemma AllocServes(h: Heap, start: nat, size: int)
    requires Inv(h, start)
    ensures var (h', p) := Alloc(h, size);
      && (p == 0 ==> h' == h)
      && (p != 0 ==>
           && p > HEADER && p - HEADER !in h.live
           && h'.live.Keys == h.live.Keys + {p - HEADER}
           && size <= h'.live[p - HEADER] < size + 16
           && forall a :: a in h.live ==> h'.live[a] == h.live[a])
  {
    if Alloc(h, size).1 != 0 {
      var amount := RoundUp(size);
      TakeInv(h, start, FirstFit(h.free, amount), amount);
    }
  }

  lemma TakeAt(free: seq<Block>, k: nat, amount: nat)
    requires k < |free| && free[k].size >= amount
    ensures var r := Take(free, k, amount);
      && (free[k].size > amount + HEADER ==> |r| == |free|)
      && (free[k].size <= amount + HEADER ==> |r| == |free| - 1)
      && forall i {:trigger r[i]} :: 0 <= i < |r| ==>
           if i < k then r[i] == free[i]
           else if free[k].size <= amount + HEADER then r[i] == free[i + 1]
           else if i == k then r[i] == Block(free[k].addr + HEADER + amount, free[k].size - amount - HEADER)
           else r[i] == free[i]
  {
  }

  /** An allocation keeps the heap sound, and the new block lies inside the free block it was taken from. */
  lemma AllocInv(h: Heap, start: nat, size: int)
    requires Inv(h, start)
    ensures Inv(Alloc(h, size).0, start)
  {
    if size > 0 && FirstFit(h.free, RoundUp(size)) < |h.free| {
      var amount := RoundUp(size);
      var k := FirstFit(h.free, amount);
      TakeInv(h, start, k, amount);
    }
  }

  predicate Inside(a: Block, b: Block) {
    b.addr <= a.addr && End(a) <= End(b)
  }

  /** Which block of the old list the i-th of the new one is, or was cut from. */
  function Origin(free: seq<Block>, k: nat, amount: nat, i: nat): nat
    requires k < |free|
  {
    if i >= k && free[k].size <= amount + HEADER then i + 1 else i
  }

  lemma TakeAligned(b: Block, start: nat, amount: nat)
    requires Sound(b, start) && Aligned(amount) && b.size > amount + HEADER
    ensures Aligned(b.addr + HEADER + amount) && Aligned(b.size - amount - HEADER) && b.size - amount - HEADER >= 16
  {
  }

  lemma TakeBlock(free: seq<Block>, start: nat, k: nat, amount: nat, i: nat)
    requires (forall j :: 0 <= j < |free| ==> Sound(free[j], start)) && Ordered(free)
    requires k < |free| && free[k].size >= amount > 0 && Aligned(amount) && i < |Take(free, k, amount)|
    ensures Origin(free, k, amount, i) < |free|
    ensures var r := Take(free, k, amount)[i];
      Sound(r, start) && Inside(r, free[Origin(free, k, amount, i)]) && Apart(Block(free[k].addr, amount), r)
  {
    TakeAt(free, k, amount);
    if free[k].size > amount + HEADER {
      TakeAligned(free[k], start, amount);
    }
    hide Take, Aligned;
    var o := Origin(free, k, amount, i);
    assert o < k ==> End(free[o]) < free[k].addr;
    assert k < o ==> End(free[k]) < free[o].addr;
  }

  lemma TakeOrdered(free: seq<Block>, k: nat, amount: nat)
    requires Ordered(free) && k < |free| && free[k].size >= amount
    ensures Ordered(Take(free, k, amount))
  {
    TakeAt(free, k, amount);
    var r := Take(free, k, amount);
    hide Take;
    forall i, j | 0 <= i < j < |r|
      ensures End(r[i]) < r[j].addr
    {
      assert End(free[Origin(free, k, amount, i)]) < free[Origin(free, k, amount, j)].addr;
    }
  }

  lemma TakeInv(h: Heap, start: nat, k: nat, amount: nat)
    requires Inv(h, start) && k < |h.free| && h.free[k].size >= amount > 0 && Aligned(amount)
    ensures Inv(Heap(Take(h.free, k, amount), h.live[h.free[k].addr := amount]), start)
    ensures h.free[k].addr !in h.live
  {
    var b, r := h.free[k], Take(h.free, k, amount);
    TakeOrdered(h.free, k, amount);
    forall i | 0 <= i < |r|
      ensures Sound(r[i], start) && Apart(Block(b.addr, amount), r[i])
      ensures forall a :: a in h.live ==> Apart(Block(a, h.live[a]), r[i])
    {
      TakeBlock(h.free, start, k, amount, i);
      var o := Origin(h.free, k, amount, i);
      forall a | a in h.live
        ensures Apart(Block(a, h.live[a]), r[i])
      {
        assert Apart(Block(a, h.live[a]), h.free[o]);
      }
    }
    hide Take, Ordered;
    forall a | a in h.live
      ensures a != b.addr && Apart(Block(a, h.live[a]), Block(b.addr, amount))
    {
      assert Apart(Block(a, h.live[a]), b) && Sound(Block(a, h.live[a]), start);
    }
  }

  // ------------------------------------------------------------------
  // Freeing

  /** How many blocks lie below address a. */
  function Slot(free: seq<Block>, a: nat): (k: nat)
    ensures k <= |free|
    ensures forall i :: 0 <= i < k ==> free[i].addr < a
    ensures k < |free| ==> free[k].addr >= a
  {
    if free == [] || free[0].addr >= a then 0 else 1 + Slot(free[1..], a)
  }

  function Join(a: Block, b: Block): Block {
    Block(a.addr, a.size + b.size + HEADER)
  }

  /** Put a block back in order of address, merged with the free blocks it touches. */
  function Release(free: seq<Block>, b: Block): seq<Block> {
    var k := Slot(free, b.addr);
    var lower := k > 0 && End(free[k - 1]) == b.addr;
    var b1 := if lower then Join(free[k - 1], b) else b;
    var upper := k < |free| && End(b1) == free[k].addr;
    var b2 := if upper then Join(b1, free[k]) else b1;
    free[..if lower then k - 1 else k] + [b2] + free[if upper then k + 1 else k..]
  }

  /** kfree() of the block with its header at a; nothing happens unless it is allocated. */
  function Free(h: Heap, a: nat): Heap {
    if a !in h.live then h
    else Heap(Release(h.free, Block(a, h.live[a])), h.live - {a})
  }

  /** b does not overlap any free block. */
  ghost predicate Outside(free: seq<Block>, b: Block) {
    forall i :: 0 <= i < |free| ==> Apart(b, free[i])
  }

  /** What the free list consists of after a release: untouched blocks around the merged one. */
  lemma ReleaseIs(free: seq<Block>, b: Block) returns (lo: nat, hi: nat, m: Block)
    ensures lo <= hi <= |free| && Release(free, b) == free[..lo] + [m] + free[hi..]
    ensures var k := Slot(free, b.addr);
      && lo == (if k > 0 && End(free[k - 1]) == b.addr then k - 1 else k)
      && hi == (if k < |free| && End(b) == free[k].addr then k + 1 else k)
      && m.addr == (if lo < k then free[lo].addr else b.addr) && End(m) == (if hi > k then End(free[k]) else End(b))
  {
    var k := Slot(free, b.addr);
    var lower := k > 0 && End(free[k - 1]) == b.addr;
    var b1 := if lower then Join(free[k - 1], b) else b;
    var upper := k < |free| && End(b1) == free[k].addr;
    m := if upper then Join(b1, free[k]) else b1;
    lo, hi := if lower then k - 1 else k, if upper then k + 1 else k;
  }

  /** Blocks below the slot end before b, and blocks from it on begin after b. */
  lemma SlotSides(free: seq<Block>, b: Block, i: nat)
    requires Ordered(free) && Outside(free, b) && i < |free|
    ensures i < Slot(free, b.addr) ==> End(free[i]) <= b.addr
    ensures i >= Slot(free, b.addr) ==> End(b) <= free[i].addr
    ensures i + 1 < Slot(free, b.addr) ==> End(free[i]) < b.addr
    ensures i > Slot(free, b.addr) ==> End(b) < free[i].addr
  {
    var k := Slot(free, b.addr);
    assert Apart(b, free[i]);
    if i + 1 < k {
      assert End(free[i]) < free[k - 1].addr;
    }
    if i > k {
      assert Apart(b, free[k]) && End(free[k]) < free[i].addr;
    }
  }

  lemma JoinSound(a: Block, b: Block, start: nat)
    requires Sound(a, start) && Sound(b, start) && End(a) == b.addr
    ensures Sound(Join(a, b), start) && End(Join(a, b)) == End(b)
    ensures forall c: Block :: Apart(c, a) && Apart(c, b) ==> Apart(c, Join(a, b))
  {
    AlignedSums(a.size, b.size);
    AlignedSums(a.size + b.size, 0);
    hide Aligned;
  }

  /** The merged block is sound, ends and begins with blocks of the list or b, and overlaps no more than they do. */
  lemma MergedSound(free: seq<Block>, start: nat, b: Block) returns (lo: nat, hi: nat, m: Block)
    requires (forall j :: 0 <= j < |free| ==> Sound(free[j], start)) && Sound(b, start)
    ensures lo <= Slot(free, b.addr) <= hi <= |free| && Release(free, b) == free[..lo] + [m] + free[hi..]
    ensures Sound(m, start)
    ensures var k := Slot(free, b.addr);
      && lo == (if k > 0 && End(free[k - 1]) == b.addr then k - 1 else k)
      && hi == (if k < |free| && End(b) == free[k].addr then k + 1 else k)
      && m.addr == (if lo < k then free[lo].addr else b.addr) && End(m) == (if hi > k then End(free[k]) else End(b))
    ensures forall c: Block :: Apart(c, b) && Outside(free, c) ==> Apart(c, m)
  {
    var k := Slot(free, b.addr);
    var lower := k > 0 && End(free[k - 1]) == b.addr;
    var b1 := if lower then Join(free[k - 1], b) else b;
    var upper := k < |free| && End(b1) == free[k].addr;
    m := if upper then Join(b1, free[k]) else b1;
    lo, hi := if lower then k - 1 else k, if upper then k + 1 else k;
    hide Aligned, Slot;
    if lower {
      JoinSound(free[k - 1], b, start);
    }
    if upper {
      JoinSound(b1, free[k], start);
    }
  }

  /** The merged block keeps clear of the blocks around it. */
  lemma MergedBlock(free: seq<Block>, start: nat, b: Block) returns (lo: nat, hi: nat, m: Block)
    requires (forall j :: 0 <= j < |free| ==> Sound(free[j], start)) && Ordered(free) && Outside(free, b)
    requires Sound(b, start)
    ensures lo <= hi <= |free| && Release(free, b) == free[..lo] + [m] + free[hi..] && Sound(m, start)
    ensures forall i :: 0 <= i < lo ==> End(free[i]) < m.addr
    ensures forall i :: hi <= i < |free| ==> End(m) < free[i].addr
    ensures forall c: Block :: Apart(c, b) && Outside(free, c) ==> Apart(c, m)
  {
    hide Aligned, Release, Slot, Sound;
    var k := Slot(free, b.addr);
    lo, hi, m := MergedSound(free, start, b);
    forall i | 0 <= i < lo
      ensures End(free[i]) < m.addr
    {
      SlotSides(free, b, i);
    }
    forall i | hi <= i < |free|
      ensures End(m) < free[i].addr
    {
      SlotSides(free, b, i);
    }
  }

  lemma AroundOrdered(free: seq<Block>, lo: nat, hi: nat, m: Block)
    requires Ordered(free) && lo <= hi <= |free|
    requires (forall i :: 0 <= i < lo ==> End(free[i]) < m.addr)
    requires (forall i :: hi <= i < |free| ==> End(m) < free[i].addr)
    requires m.addr <= End(m)
    ensures Ordered(free[..lo] + [m] + free[hi..])
  {
    var r := free[..lo] + [m] + free[hi..];
    forall i, j | 0 <= i < j < |r|
      ensures End(r[i]) < r[j].addr
    {
      if i < lo && j > lo {
        assert End(free[i]) < free[j - lo - 1 + hi].addr;
      }
    }
  }

  /** Freeing keeps the heap sound. */
  lemma FreeInv(h: Heap, start: nat, a: nat)
    requires Inv(h, start)
    ensures Inv(Free(h, a), start)
  {
    hide Ordered, Release, Sound;
    if a in h.live {
      var b := Block(a, h.live[a]);
      var lo, hi, m := MergedBlock(h.free, start, b);
      var r := h.free[..lo] + [m] + h.free[hi..];
      AroundOrdered(h.free, lo, hi, m);
      PartsSound(h.free, start, lo, hi, m);
      forall c | c in h.live && c != a
        ensures Outside(r, Block(c, h.live[c]))
      {
        PartsOutside(h.free, lo, hi, m, Block(c, h.live[c]));
      }
      hide Apart;
    }
  }

  lemma PartsSound(free: seq<Block>, start: nat, lo: nat, hi: nat, m: Block)
    requires lo <= hi <= |free| && Sound(m, start) && forall i :: 0 <= i < |free| ==> Sound(free[i], start)
    ensures var r := free[..lo] + [m] + free[hi..]; forall i :: 0 <= i < |r| ==> Sound(r[i], start)
  {
    hide Sound;
  }

  lemma PartsOutside(free: seq<Block>, lo: nat, hi: nat, m: Block, c: Block)
    requires lo <= hi <= |free| && Apart(c, m) && Outside(free, c)
    ensures Outside(free[..lo] + [m] + free[hi..], c)
  {
    hide Apart;
  }

  // ------------------------------------------------------------------
  // Freeing what was just allocated

  lemma {:induction false} SlotIs(free: seq<Block>, a: nat, k: nat)
    requires k <= |free| && (forall i :: 0 <= i < k ==> free[i].addr < a) && (k < |free| ==> free[k].addr >= a)
    ensures Slot(free, a) == k
    decreases k
  {
    if k > 0 {
      SlotIs(free[1..], a, k - 1);
    }
  }

  /**
   Allocating and freeing again restores the heap exactly, unless the block was 16 bytes
   larger than needed: then it comes back 16 bytes smaller.
   */
  lemma AllocThenFree(h: Heap, start: nat, size: int)
    requires Inv(h, start) && Alloc(h, size).1 != 0
    ensures var (h', p) := Alloc(h, size);
      var k := FirstFit(h.free, RoundUp(size));
      && p >= HEADER && k < |h.free|
      && Free(h', p - HEADER) ==
           if Wastes(h, size) then h.(free := h.free[k := Block(h.free[k].addr, h.free[k].size - HEADER)]) else h
  {
    hide Inv, Ordered, Take, Release, Aligned, Sound, RoundUp, FirstFit;
    AllocFacts(h, start, size);
    var amount := RoundUp(size);
    var k := FirstFit(h.free, amount);
    var b := h.free[k];
    assert h.live[b.addr := amount] - {b.addr} == h.live;
    TakeThenRelease(h.free, k, amount);
    var back := Block(b.addr, if b.size > amount + HEADER then b.size else amount);
    assert b.size == back.size ==> h.free[k := back] == h.free;
  }

  lemma AllocFacts(h: Heap, start: nat, size: int)
    requires Inv(h, start) && Alloc(h, size).1 != 0
    ensures size > 0 && FirstFit(h.free, RoundUp(size)) < |h.free|
    ensures var amount := RoundUp(size);
      var b := h.free[FirstFit(h.free, amount)];
      && b.size >= amount && b.addr !in h.live && Ordered(h.free)
      && (b.size == amount || b.size >= amount + HEADER)
  {
    var amount := RoundUp(size);
    var k := FirstFit(h.free, amount);
    TakeInv(h, start, k, amount);
    SpareAligned(h.free[k], start, amount);
  }

  lemma SpareAligned(b: Block, start: nat, amount: nat)
    requires Sound(b, start) && Aligned(amount) && b.size >= amount
    ensures b.size == amount || b.size >= amount + HEADER
  {
  }

  lemma TakeThenRelease(free: seq<Block>, k: nat, amount: nat)
    requires Ordered(free) && k < |free| && free[k].size >= amount
    ensures Release(Take(free, k, amount), Block(free[k].addr, amount)) ==
      free[k := Block(free[k].addr, if free[k].size > amount + HEADER then free[k].size else amount)]
  {
    hide Release, Ordered, Slot;
    var b := free[k];
    Neighbours(free, k);
    if b.size > amount + HEADER {
      RejoinRest(free, k, amount);
    } else {
      PutBack(free, k, amount);
    }
  }

  lemma Neighbours(free: seq<Block>, k: nat)
    requires Ordered(free) && k < |free|
    ensures forall i :: 0 <= i < k ==> free[i].addr < free[k].addr
    ensures k > 0 ==> End(free[k - 1]) < free[k].addr
    ensures k + 1 < |free| ==> End(free[k]) < free[k + 1].addr
  {
  }

  lemma RejoinRest(free: seq<Block>, k: nat, amount: nat)
    requires k < |free| && free[k].size > amount + HEADER
    requires (forall i :: 0 <= i < k ==> free[i].addr < free[k].addr) && (k > 0 ==> End(free[k - 1]) < free[k].addr)
    ensures var b := free[k];
      Release(free[k := Block(b.addr + HEADER + amount, b.size - amount - HEADER)], Block(b.addr, amount)) == free
  {
    hide Slot;
    var b := free[k];
    var r := free[k := Block(b.addr + HEADER + amount, b.size - amount - HEADER)];
    SlotIs(r, b.addr, k);
    assert r[..k] + [b] + r[k + 1..] == free;
  }

  lemma PutBack(free: seq<Block>, k: nat, amount: nat)
    requires k < |free| && free[k].size >= amount
    requires (forall i :: 0 <= i < k ==> free[i].addr < free[k].addr) && (k > 0 ==> End(free[k - 1]) < free[k].addr)
    requires k + 1 < |free| ==> End(free[k]) < free[k + 1].addr
    ensures Release(free[..k] + free[k + 1..], Block(free[k].addr, amount)) == free[k := Block(free[k].addr, amount)]
  {
    var b := free[k];
    var r := free[..k] + free[k + 1..];
    SlotIs(r, b.addr, k);
    hide Slot;
    assert r[..k] + [Block(b.addr, amount)] + r[k..] == free[k := Block(b.addr, amount)];
  }

  // ------------------------------------------------------------------
  // Accounting

  function Bytes(free: seq<Block>): nat {
    if free == [] then 0 else HEADER + free[0].size + Bytes(free[1..])
  }

  ghost function LiveBytes(live: map<nat, nat>): nat
    decreases |live|
  {
    if live == map[] then 0
    else
      var a :| a in live;
      HEADER + live[a] + LiveBytes(live - {a})
  }

  lemma {:induction false} BytesSum(a: seq<Block>, b: seq<Block>)
    ensures Bytes(a + b) == Bytes(a) + Bytes(b)
    decreases |a|
  {
    if a == [] {
      assert a + b == b;
    } else {
      BytesSum(a[1..], b);
      assert (a + b)[1..] == a[1..] + b;
    }
  }

  lemma BytesParts(a: seq<Block>, m: Block, b: seq<Block>)
    ensures Bytes(a + [m] + b) == Bytes(a) + HEADER + m.size + Bytes(b)
  {
    BytesSum(a + [m], b);
    BytesSum(a, [m]);
  }

  lemma {:induction false} LiveBytesWithout(live: map<nat, nat>, a: nat)
    requires a in live
    ensures LiveBytes(live) == HEADER + live[a] + LiveBytes(live - {a})
    decreases |live|
  {
    var c :| c in live && LiveBytes(live) == HEADER + live[c] + LiveBytes(live - {c});
    if c != a {
      LiveBytesWithout(live - {c}, a);
      LiveBytesWithout(live - {a}, c);
      assert live - {c} - {a} == live - {a} - {c};
    }
  }

  /** Bytes in free and allocated blocks, headers included. */
  ghost function Total(h: Heap): nat {
    Bytes(h.free) + LiveBytes(h.live)
  }

  lemma TakeBytes(free: seq<Block>, k: nat, amount: nat)
    requires k < |free| && free[k].size >= amount
    ensures Bytes(free) == Bytes(Take(free, k, amount)) +
            if free[k].size > amount + HEADER then HEADER + amount else HEADER + free[k].size
  {
    hide Bytes;
    var b := free[k];
    assert free == free[..k] + [b] + free[k + 1..];
    BytesParts(free[..k], b, free[k + 1..]);
    if b.size > amount + HEADER {
      var rest := Block(b.addr + HEADER + amount, b.size - amount - HEADER);
      assert Take(free, k, amount) == free[..k] + [rest] + free[k + 1..];
      BytesParts(free[..k], rest, free[k + 1..]);
    } else {
      BytesSum(free[..k], free[k + 1..]);
    }
  }

  /** An allocation loses 16 bytes exactly when the block has a header's worth to spare. */
  lemma AllocAccount(h: Heap, start: nat, size: int)
    requires Inv(h, start)
    ensures Total(h) == Total(Alloc(h, size).0) + if Wastes(h, size) then HEADER else 0
  {
    var amount := if size > 0 then RoundUp(size) else 0;
    var k := FirstFit(h.free, amount);
    if size > 0 && k < |h.free| {
      var b := h.free[k];
      TakeInv(h, start, k, amount);
      SpareAligned(b, start, amount);
      hide Inv, Take, Bytes, LiveBytes, FirstFit, Aligned;
      TakeBytes(h.free, k, amount);
      LiveBytesWithout(h.live[b.addr := amount], b.addr);
      assert h.live[b.addr := amount] - {b.addr} == h.live;
    }
  }

  lemma ReleaseBytes(free: seq<Block>, b: Block)
    ensures Bytes(Release(free, b)) == Bytes(free) + HEADER + b.size
  {
    var k := Slot(free, b.addr);
    var lo, hi, m := ReleaseIs(free, b);
    hide Release, Slot;
    BytesParts(free[..lo], m, free[hi..]);
    BytesThrough(free, lo, k);
    BytesThrough(free, k, hi);
  }

  /** One block more or none. */
  lemma BytesThrough(free: seq<Block>, i: nat, j: nat)
    requires i <= j <= i + 1 && j <= |free|
    ensures Bytes(free) == Bytes(free[..i]) + Bytes(free[i..])
    ensures Bytes(free[..j]) == Bytes(free[..i]) + if i < j then HEADER + free[i].size else 0
    ensures Bytes(free[i..]) == Bytes(free[j..]) + if i < j then HEADER + free[i].size else 0
  {
    hide Bytes;
    OneBlock();
    assert free == free[..i] + free[i..];
    BytesSum(free[..i], free[i..]);
    if i < j {
      assert free[..j] == free[..i] + [free[i]] && free[i..] == [free[i]] + free[j..];
      BytesSum(free[..i], [free[i]]);
      BytesSum([free[i]], free[j..]);
    }
  }

  lemma OneBlock()
    ensures forall b: Block {:trigger Bytes([b])} :: Bytes([b]) == HEADER + b.size
  {
  }

  /** Freeing loses nothing. */
  lemma FreeAccount(h: Heap, start: nat, a: nat)
    requires Inv(h, start)
    ensures Total(Free(h, a)) == Total(h)
  {
    hide Inv, Release, Bytes, LiveBytes;
    if a in h.live {
      ReleaseBytes(h.free, Block(a, h.live[a]));
      LiveBytesWithout(h.live, a);
    }
  }

  // ------------------------------------------------------------------
  // Runs

  datatype Op = Malloc(size: int) | Mfree(a: nat)

  function Do(h: Heap, op: Op): Heap {
    match op
    case Malloc(size) => Alloc(h, size).0
    case Mfree(a) => Free(h, a)
  }

  function Run(h: Heap, ops: seq<Op>): Heap
    decreases |ops|
  {
    if ops == [] then h else Run(Do(h, ops[0]), ops[1..])
  }

  /** How many allocations of a run lose 16 bytes. */
  function Losses(h: Heap, ops: seq<Op>): nat
    decreases |ops|
  {
    if ops == [] then 0
    else (if ops[0].Malloc? && Wastes(h, ops[0].size) then 1 else 0) + Losses(Do(h, ops[0]), ops[1..])
  }

  /** After any run the heap is sound and short of exactly 16 bytes for every such allocation. */
  lemma {:induction false} RunSound(h: Heap, start: nat, ops: seq<Op>)
    requires Inv(h, start)
    ensures Inv(Run(h, ops), start)
    ensures Total(Run(h, ops)) + HEADER * Losses(h, ops) == Total(h)
    decreases |ops|
  {
    if ops != [] {
      match ops[0] {
        case Malloc(size) =>
          AllocInv(h, start, size);
          AllocAccount(h, start, size);
        case Mfree(a) =>
          FreeInv(h, start, a);
          FreeAccount(h, start, a);
      }
      hide Inv, Total, Do, Wastes;
      RunSound(Do(h, ops[0]), start, ops[1..]);
    }
  }

  // ------------------------------------------------------------------
  // What the callers hold

  /** The sizes that were asked for, by the address kmalloc gave, of the blocks not freed since. */
  function Asked(h: Heap, asked: map<nat, int>, ops: seq<Op>): map<nat, int>
    decreases |ops|
  {
    if ops == [] then asked
    else
      match ops[0]
      case Malloc(size) =>
        var (h', p) := Alloc(h, size);
        Asked(h', if p == 0 then asked else asked[p := size], ops[1..])
      case Mfree(a) => Asked(Free(h, a), asked - {a + HEADER}, ops[1..])
  }

  /** Every caller's bytes are those of a live block, and every live block is a caller's. */
  ghost predicate Serves(h: Heap, asked: map<nat, int>) {
    && (forall p :: p in asked ==> p >= HEADER && p - HEADER in h.live && 0 < asked[p] <= h.live[p - HEADER])
    && (forall a :: a in h.live ==> a + HEADER in asked)
  }

  lemma MallocServes(h: Heap, start: nat, asked: map<nat, int>, size: int)
    requires Inv(h, start) && Serves(h, asked)
    ensures var (h', p) := Alloc(h, size); Serves(h', if p == 0 then asked else asked[p := size])
  {
    hide Inv, Alloc, Serves;
    AllocServes(h, start, size);
    AllocFirstFit(h, start, size);
    var (h', p) := Alloc(h, size);
    if p != 0 {
      OneMoreServed(h, h', asked, p, size);
    }
  }

  lemma OneMoreServed(h: Heap, h': Heap, asked: map<nat, int>, p: nat, size: int)
    requires Serves(h, asked) && p > HEADER && p - HEADER !in h.live && 0 < size
    requires h'.live.Keys == h.live.Keys + {p - HEADER} && size <= h'.live[p - HEADER]
    requires forall a :: a in h.live ==> h'.live[a] == h.live[a]
    ensures Serves(h', asked[p := size])
  {
  }

  lemma FreeServes(h: Heap, asked: map<nat, int>, a: nat)
    requires Serves(h, asked)
    ensures Serves(Free(h, a), asked - {a + HEADER})
  {
    hide Release;
    if a !in h.live {
      assert a + HEADER in asked ==> a + HEADER - HEADER in h.live;
    }
  }

  lemma {:induction false} RunServes(h: Heap, start: nat, asked: map<nat, int>, ops: seq<Op>)
    requires Inv(h, start) && Serves(h, asked)
    ensures Inv(Run(h, ops), start) && Serves(Run(h, ops), Asked(h, asked, ops))
    decreases |ops|
  {
    hide Inv, Serves;
    if ops != [] {
      match ops[0] {
        case Malloc(size) =>
          AllocInv(h, start, size);
          MallocServes(h, start, asked, size);
          var (h', p) := Alloc(h, size);
          RunServes(h', start, if p == 0 then asked else asked[p := size], ops[1..]);
        case Mfree(a) =>
          FreeInv(h, start, a);
          FreeServes(h, asked, a);
          RunServes(Free(h, a), start, asked - {a + HEADER}, ops[1..]);
      }
    }
  }

  /** The bytes from a up to b and those from c up to d have none in common. */
  predicate Disjoint(a: int, b: int, c: int, d: int) {
    b <= c || d <= a
  }

  /**
   After any run from kmeminit(), the bytes asked for and not yet freed lie inside the two
   regions, apart from each other and from every free block.
   */
  lemma HeldApart(freemem: nat, ops: seq<Op>)
    requires 0 < freemem && RoundUp(freemem) + 2 * HEADER <= HOLESTART
    ensures var held, h := Asked(Initial(freemem), map[], ops), Run(Initial(freemem), ops);
      && (forall p :: p in held ==>
           && 0 < held[p]
           && ((freemem <= p && p + held[p] <= HOLESTART) || (HOLEEND <= p && p + held[p] <= FREEMEM_END)))
      && (forall p, q :: p in held && q in held && p != q ==> Disjoint(p, p + held[p], q, q + held[q]))
      && (forall p, i :: p in held && 0 <= i < |h.free| ==>
           Disjoint(p, p + held[p], h.free[i].addr, End(h.free[i])))
  {
    hide Initial, Inv, Serves, Asked, Run, RoundUp;
    InitialInv(freemem);
    NothingHeld(freemem);
    var start := RoundUp(freemem);
    RunServes(Initial(freemem), start, map[], ops);
    ServedApart(Run(Initial(freemem), ops), start, Asked(Initial(freemem), map[], ops));
  }

  lemma NothingHeld(freemem: nat)
    requires RoundUp(freemem) + HEADER <= HOLESTART
    ensures Serves(Initial(freemem), map[]) && freemem <= RoundUp(freemem)
  {
  }

  lemma ServedApart(h: Heap, start: nat, held: map<nat, int>)
    requires Inv(h, start) && Serves(h, held)
    ensures forall p :: p in held ==>
      && 0 < held[p]
      && ((start <= p && p + held[p] <= HOLESTART) || (HOLEEND <= p && p + held[p] <= FREEMEM_END))
    ensures forall p, q :: p in held && q in held && p != q ==> Disjoint(p, p + held[p], q, q + held[q])
    ensures forall p, i :: p in held && 0 <= i < |h.free| ==> Disjoint(p, p + held[p], h.free[i].addr, End(h.free[i]))
  {
    hide Inv, Serves, Disjoint, End;
    forall p | p in held
      ensures 0 < held[p]
      ensures (start <= p && p + held[p] <= HOLESTART) || (HOLEEND <= p && p + held[p] <= FREEMEM_END)
    {
      ServedBy(h, start, held, p);
    }
    forall p, q | p in held && q in held && p != q
      ensures Disjoint(p, p + held[p], q, q + held[q])
    {
      TwoServed(h, start, held, p, q);
    }
    forall p, i | p in held && 0 <= i < |h.free|
      ensures Disjoint(p, p + held[p], h.free[i].addr, End(h.free[i]))
    {
      ServedNotFree(h, start, held, p, i);
    }
  }

  /** The caller's bytes are inside a live block. */
  lemma ServedBy(h: Heap, start: nat, held: map<nat, int>, p: nat)
    requires Inv(h, start) && Serves(h, held) && p in held
    ensures p >= HEADER && p - HEADER in h.live && 0 < held[p] <= h.live[p - HEADER]
    ensures (start <= p && p + held[p] <= HOLESTART) || (HOLEEND <= p && p + held[p] <= FREEMEM_END)
  {
    hide Ordered, Apart, Aligned;
    assert Sound(Block(p - HEADER, h.live[p - HEADER]), start);
  }

  lemma TwoServed(h: Heap, start: nat, held: map<nat, int>, p: nat, q: nat)
    requires Inv(h, start) && Serves(h, held) && p in held && q in held && p != q
    ensures Disjoint(p, p + held[p], q, q + held[q])
  {
    hide Ordered, Sound;
    assert Apart(Block(p - HEADER, h.live[p - HEADER]), Block(q - HEADER, h.live[q - HEADER]));
  }

  lemma ServedNotFree(h: Heap, start: nat, held: map<nat, int>, p: nat, i: nat)
    requires Inv(h, start) && Serves(h, held) && p in held && i < |h.free|
    ensures Disjoint(p, p + held[p], h.free[i].addr, End(h.free[i]))
  {
    hide Ordered, Sound;
    assert Apart(Block(p - HEADER, h.live[p - HEADER]), h.free[i]);
  }

  /** kmeminit() wastes nothing but the bytes before the first multiple of 16. */
  lemma InitialAll(freemem: nat)
    requires 0 < freemem && RoundUp(freemem) + 2 * HEADER <= HOLESTART
    ensures Total(Initial(freemem)) + RoundUp(freemem) == HOLESTART + (FREEMEM_END - HOLEEND)
  {
    hide RoundUp;
    var h := Initial(freemem);
    TwoBlocks(h.free[0], h.free[1]);
    assert h.free == [h.free[0], h.free[1]];
    assert LiveBytes(h.live) == 0;
  }

  lemma TwoBlocks(a: Block, b: Block)
    ensures Bytes([a, b]) == 2 * HEADER + a.size + b.size
  {
    assert [a, b][1..] == [b] && [b][1..] == [];
    assert Bytes([b]) == HEADER + b.size;
  }
}

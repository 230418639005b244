/**
 Making tables up to the level the current code needs (boot/zBoot/inflate.c, the
 loop `while (k > w + l)` of huft_build), and what it keeps.
 */
module HuftPush {
  import opened Bits
  import opened Huffman
  import opened HuftTables
  import opened HuftProgress
  import opened HuftLayout

  /** The current code: the r-th of length k, at position p, with `a` more of that length to come. */
  ghost predicate CodeAt(cx: Ctx, c: seq<nat>, k: nat, r: nat, a: nat, p: nat, cur: seq<bool>) {
    && Filling(cx, c) && 1 <= k <= cx.g && r + a + 1 == c[k]
    && p == At(cx.lens, k, r)
    && |cur| == BMAX && Msb(cur) == p
  }

  /** Nothing but zeros follows the first `n` bits. */
  ghost predicate ZerosAfter(cur: seq<bool>, n: int) {
    0 <= n <= |cur| && cur == cur[..n] + Zeros(|cur| - n)
  }

  lemma ZerosAfterMore(cur: seq<bool>, m: int, n: int)
    requires ZerosAfter(cur, m) && m <= n <= |cur|
    ensures ZerosAfter(cur, n)
  {
    assert cur[n..] == Zeros(|cur| - n);
    assert cur == cur[..n] + cur[n..];
  }

  lemma PrefixOfZeros(cur: seq<bool>, n: nat)
    requires ZerosAfter(cur, n) && |cur| == BMAX
    ensures Lo(BMAX, cur[..n]) == Msb(cur)
    ensures Lsb(cur) == Lsb(cur[..n])
  {
    hide Msb, Lsb;
    assert Lo(BMAX, cur) == Msb(cur);
    LoZeros(cur[..n], BMAX - n);
    LsbZeros(cur[..n], BMAX - n);
  }

  /** A subtable at depth `w` for a code of length `k` at position `p` is wide. */
  ghost predicate WideAt(cx: Ctx, k: nat, w: nat, p: nat)
    requires 1 <= k <= BMAX && w <= BMAX
  {
    k > w + cx.l || (k == w + cx.l && Limit(cx, k) < p + Pow2(BMAX - w))
  }

  /** What the size of a new table at prefix `pi` promises. */
  ghost predicate Sized(cx: Ctx, k: nat, p: nat, pi: seq<bool>, bits: nat) {
    && 1 <= k <= BMAX && |pi| <= BMAX
    && 1 <= bits && |pi| + bits <= BMAX && k <= |pi| + bits
    && Fits(cx, Info(pi, bits, 0))
    && (bits > cx.l <==> WideAt(cx, k, |pi|, p))
  }

  /** Patterns of w + j bits left in the new table once all codes up to that length are in. */
  ghost predicate PatternsInTable(cx: Ctx, hi: nat, n: nat, f: nat) {
    1 <= n < BMAX && f * Pow2(BMAX - n) + Base(cx.lens, n + 1) == hi
  }

  /** Try tables of more than `k - w` bits, deducting the codes that fit, until none are left over. */
  method MoreBits(ghost cx: Ctx, ghost hi: nat, c: seq<nat>, k: nat, w: nat, z: nat, left: nat)
    returns (j: nat, filled: bool)
    requires Filling(cx, c) && w < k && w + z <= cx.g && left > 0
    requires k < BMAX && PatternsInTable(cx, hi, k, left)
    ensures filled ==> k < w + j < w + z && hi <= Base(cx.lens, w + j + 1)
    ensures !filled ==> w + j > k && (j == z || (w + j == k + 1 && j > z))
  {
    hide PatternsInTable, Pow2, Base, End, NextCode, Count, Kraft, Oversubscribed, MeaningFor;
    var f := left;
    j := k - w + 1;
    while j < z
      invariant k < w + j && (j <= z || w + j == k + 1) && f > 0
      invariant w + j - 1 < BMAX && PatternsInTable(cx, hi, w + j - 1, f)
    {
      f := 2 * f;
      TwicePatterns(cx, hi, w + j, f);
      if f <= c[w + j] {
        return j, true;
      }
      f := f - c[w + j];
      j := j + 1;
    }
    filled := false;
  }

  /** The number of index bits of a new table: the fewest that the codes to come fill, at most l. */
  method SizeTable(ghost cx: Ctx, c: seq<nat>, k: nat, w: nat, a: nat, g: nat, l: nat,
                   ghost r: nat, ghost p: nat, ghost cur: seq<bool>) returns (j: nat)
    requires CodeAt(cx, c, k, r, a, p, cur) && g == cx.g && l == cx.l
    requires w < k && Lo(BMAX, cur[..w]) == p
    ensures Sized(cx, k, p, cur[..w], j)
  {
    hide Pow2, Sized, PatternsInTable, Limit, Base, Lo, Hi, Msb, NextCode, Count, Kraft;
    assert k <= g <= BMAX;
    var z := if g - w > l then l else g - w;
    var f := Pow2(k - w);
    RoomForCode(cx, c, k, r, a, p, cur, w);
    if f > a + 1 {
      var filled;
      j, filled := MoreBits(cx, Hi(BMAX, cur[..w]), c, k, w, z, f - (a + 1));
      SizedByMoreBits(cx, k, p, cur[..w], j, z, filled);
    } else {
      j := k - w;
    }
  }

  lemma SizedByMoreBits(cx: Ctx, k: nat, p: nat, pi: seq<bool>, j: nat, z: nat, filled: bool)
    requires |pi| < k < cx.g <= BMAX && z == (if cx.g - |pi| > cx.l then cx.l else cx.g - |pi|)
    requires Limit(cx, k) < Hi(BMAX, pi) == p + Pow2(BMAX - |pi|)
    requires filled ==> k < |pi| + j < |pi| + z && Hi(BMAX, pi) <= Base(cx.lens, |pi| + j + 1)
    requires !filled ==> |pi| + j > k && (j == z || (|pi| + j == k + 1 && j > z))
    ensures Sized(cx, k, p, pi, j)
  {
    if filled {
      SizedByBreak(cx, k, p, pi, j);
    } else {
      SizedByLimit(cx, k, p, pi, j, z);
    }
  }

  lemma RoomForCode(cx: Ctx, c: seq<nat>, k: nat, r: nat, a: nat, p: nat, cur: seq<bool>, w: nat)
    requires CodeAt(cx, c, k, r, a, p, cur) && w < k && Lo(BMAX, cur[..w]) == p
    ensures Pow2(k - w) <= a + 1 ==> Sized(cx, k, p, cur[..w], k - w)
    ensures Pow2(k - w) > a + 1 ==>
      k < cx.g && PatternsInTable(cx, Hi(BMAX, cur[..w]), k, Pow2(k - w) - (a + 1))
      && Limit(cx, k) < Hi(BMAX, cur[..w]) == p + Pow2(BMAX - w)
  {
    hide Lo, Hi, Kraft, Base, End, Pow2, Sized, PatternsInTable, Limit;
    CodesLeft(cx, c, k, r, a, p, cur);
    RoomInTable(cx, k, a, p, cur[..w]);
    if Pow2(k - w) <= a + 1 {
      SizedAtOnce(cx, c, k, r, a, p, cur, w);
    }
  }

  lemma SizedByBreak(cx: Ctx, k: nat, p: nat, pi: seq<bool>, j: nat)
    requires 1 <= k < cx.g <= BMAX && |pi| < k < |pi| + j < cx.g && j < cx.l
    requires Hi(BMAX, pi) <= Base(cx.lens, |pi| + j + 1)
    ensures Sized(cx, k, p, pi, j)
  {
  }

  lemma SizedByLimit(cx: Ctx, k: nat, p: nat, pi: seq<bool>, j: nat, z: nat)
    requires 1 <= k < cx.g <= BMAX && |pi| < k < |pi| + j
    requires z == (if cx.g - |pi| > cx.l then cx.l else cx.g - |pi|)
    requires j == z || (j == k - |pi| + 1 && j > z)
    requires Limit(cx, k) < Hi(BMAX, pi) == p + Pow2(BMAX - |pi|)
    ensures Sized(cx, k, p, pi, j)
  {
  }

  lemma SizedAtOnce(cx: Ctx, c: seq<nat>, k: nat, r: nat, a: nat, p: nat, cur: seq<bool>, w: nat)
    requires CodeAt(cx, c, k, r, a, p, cur) && w < k
    requires Hi(BMAX, cur[..w]) == p + Pow2(BMAX - w) <= Limit(cx, k)
    ensures Sized(cx, k, p, cur[..w], k - w)
  {
    hide Pow2, NextCode, Count, Kraft, Msb, Hi;
    LimitIs(cx, c, k);
  }

  lemma CodesLeft(cx: Ctx, c: seq<nat>, k: nat, r: nat, a: nat, p: nat, cur: seq<bool>)
    requires CodeAt(cx, c, k, r, a, p, cur)
    ensures Limit(cx, k) == p + (a + 1) * Pow2(BMAX - k)
    ensures k < cx.g ==> Limit(cx, k) == Base(cx.lens, k + 1)
    ensures k == cx.g ==> Limit(cx, k) == Pow2(BMAX)
  {
    LimitIs(cx, c, k);
    AtStep(cx.lens, k, r, a + 1);
  }

  lemma TableSpan(pi: seq<bool>, k: nat, p: nat)
    requires |pi| < k <= BMAX && Lo(BMAX, pi) == p
    ensures Hi(BMAX, pi) == p + Pow2(k - |pi|) * Pow2(BMAX - k) == p + Pow2(BMAX - |pi|) <= Pow2(BMAX)
  {
    hide Lo, Pow2, Msb;
    HiBound(BMAX, pi);
    Pow2Add(k - |pi|, BMAX - k);
    assert k - |pi| + (BMAX - k) == BMAX - |pi|;
  }

  /** How the patterns of the new table compare with the codes of length k still to come. */
  lemma RoomInTable(cx: Ctx, k: nat, a: nat, p: nat, pi: seq<bool>)
    requires |pi| < k <= cx.g <= BMAX && Lo(BMAX, pi) == p
    requires Limit(cx, k) == p + (a + 1) * Pow2(BMAX - k)
    requires k < cx.g ==> Limit(cx, k) == Base(cx.lens, k + 1)
    requires k == cx.g ==> Limit(cx, k) == Pow2(BMAX)
    ensures Pow2(k - |pi|) <= a + 1 <==> Hi(BMAX, pi) <= Limit(cx, k)
    ensures Pow2(k - |pi|) > a + 1 ==> k < cx.g && PatternsInTable(cx, Hi(BMAX, pi), k, Pow2(k - |pi|) - (a + 1))
    ensures Hi(BMAX, pi) == p + Pow2(BMAX - |pi|)
  {
    TableSpan(pi, k, p);
    RoomArithmetic(p, Pow2(k - |pi|), a + 1, Pow2(BMAX - k));
  }

  lemma RoomArithmetic(p: nat, patterns: nat, codes: nat, d: nat)
    requires d > 0
    ensures patterns <= codes <==> p + patterns * d <= p + codes * d
    ensures patterns > codes ==> (patterns - codes) * d + (p + codes * d) == p + patterns * d
  {
    if patterns <= codes {
      MulScale(patterns, codes, d);
    } else {
      MulDistributes(patterns - codes, codes, d);
      MulScale(1, patterns - codes, d);
    }
  }

  lemma TwicePatterns(cx: Ctx, hi: nat, n: nat, f2: nat)
    requires 2 <= n < BMAX && f2 % 2 == 0 && PatternsInTable(cx, hi, n - 1, f2 / 2)
    ensures f2 <= Count(cx.lens, n) ==> hi <= Base(cx.lens, n + 1)
    ensures f2 > Count(cx.lens, n) ==> PatternsInTable(cx, hi, n, f2 - Count(cx.lens, n))
  {
    var d, cn := Pow2(BMAX - n), Count(cx.lens, n);
    MulAssoc(f2 / 2, 2, d);
    BaseStep(cx.lens, n);
    if f2 <= cn {
      MulScale(f2, cn, d);
    } else {
      MulDistributes(f2 - cn, cn, d);
    }
  }

  // ------------------------------------------------------------------
  // Pushing tables

  /** About to make tables for, or place, the current code. */
  ghost predicate AtCode(cx: Ctx, arena: Arena, infos: seq<Info>, st: Stack, i: nat, k: nat, p: nat, cur: seq<bool>) {
    && Progress(cx, arena, infos, st, p, cur)
    && i == Lsb(cur) && 1 <= k <= cx.g && ZerosAfter(cur, k) && Base(cx.lens, k) <= p
    && Depth(cx, infos, st) < k
    && (k > Depth(cx, infos, st) + cx.l ==> ZerosAfter(cur, Depth(cx, infos, st) + cx.l))
  }

  ghost function PushStack(st: Stack, t: nat, i: nat): Stack
    requires -1 <= st.h < BMAX - 1 && |st.u| == BMAX && |st.x| == BMAX + 1
  {
    Stack(st.u[st.h + 1 := t], if st.h >= 0 then st.x[st.h + 1 := i] else st.x, st.h + 1)
  }

  lemma RootTable(cx: Ctx, bits: nat, p: nat)
    requires CtxOK(cx) && 1 <= bits <= BMAX && Fits(cx, Info([], bits, 0)) && p == 0
    ensures Tables(cx, [Fresh(Pow2(bits))], [Info([], bits, 0)], p)
  {
  }

  lemma RootChain(cx: Ctx, st: Stack, bits: nat, i: nat, p: nat)
    requires Chain(cx, [], st) && st.x[0] == 0
    ensures Chain(cx, [Info([], bits, 0)], PushStack(st, 0, i))
    ensures Finished([Info([], bits, 0)], PushStack(st, 0, i), p)
  {
    var st' := PushStack(st, 0, i);
    assert st'.u[0] == 0;
  }

  lemma EmptyPrefix()
    ensures Lo(BMAX, []) == 0
  {
  }

  lemma PushRoot(cx: Ctx, arena: Arena, infos: seq<Info>, st: Stack, i: nat, k: nat, p: nat, cur: seq<bool>, bits: nat)
    requires AtCode(cx, arena, infos, st, i, k, p, cur) && st.h == -1 && st.x[0] == 0 && k > Depth(cx, infos, st) + cx.l
    requires Sized(cx, k, p, [], bits)
    ensures AtCode(cx, [Fresh(Pow2(bits))], [Info([], bits, 0)], PushStack(st, 0, i), i, k, p, cur)
  {
    hide Lo, Hi, Lsb, Msb, Pow2, Kraft, Base, End, SlotDone, Linked;
    PrefixOfZeros(cur, 0);
    assert cur[..0] == [];
    EmptyPrefix();
    RootTable(cx, bits, p);
    RootChain(cx, st, bits, i, p);
    if k > cx.l {
      ZerosAfterMore(cur, 0, cx.l);
    }
  }

  /** The parent of a new subtable is full size. */
  lemma ParentFull(cx: Ctx, f: Info, k: nat, p: nat, cur: seq<bool>)
    requires Fits(cx, f) && |f.prefix| + cx.l < k <= cx.g <= BMAX
    requires |cur| == BMAX && Msb(cur) == p && f.prefix <= cur && Base(cx.lens, k) <= p
    ensures f.bits >= cx.l
  {
    var n := |f.prefix| + f.bits;
    if f.bits < cx.l {
      BaseOrder(cx.lens, n + 1, k);
      assert Lo(BMAX, cur) == p;
      PrefixIffInside(BMAX, f.prefix, cur);
    }
  }

  lemma PushChain(cx: Ctx, infos: seq<Info>, st: Stack, i: nat, pi: seq<bool>, f: Info)
    requires Chain(cx, infos, st) && 0 <= st.h < BMAX - 1
    requires f.prefix == pi && f.parent == st.u[st.h] && i == Lsb(pi)
    requires infos[st.u[st.h]].prefix <= pi && |pi| == |infos[st.u[st.h]].prefix| + cx.l && cx.l >= 1
    ensures Chain(cx, infos + [f], PushStack(st, |infos|, i))
  {
    hide Lsb, Pow2, Rung;
    PushRungs(cx, infos, st, i, f);
    PushPrefixes(cx, infos, st, i, pi, f);
  }

  lemma PushRungs(cx: Ctx, infos: seq<Info>, st: Stack, i: nat, f: Info)
    requires Chain(cx, infos, st) && 0 <= st.h < BMAX - 1 && f.parent == st.u[st.h]
    requires |f.prefix| == |infos[st.u[st.h]].prefix| + cx.l
    ensures forall a :: Rung(cx, infos + [f], PushStack(st, |infos|, i), a)
  {
    hide Lsb;
    forall a
      ensures Rung(cx, infos + [f], PushStack(st, |infos|, i), a)
    {
      assert Rung(cx, infos, st, a);
    }
  }

  lemma PushPrefixes(cx: Ctx, infos: seq<Info>, st: Stack, i: nat, pi: seq<bool>, f: Info)
    requires Chain(cx, infos, st) && 0 <= st.h < BMAX - 1 && f.prefix == pi && infos[st.u[st.h]].prefix <= pi
    ensures var st' := PushStack(st, |infos|, i);
      forall a :: 0 <= a <= st'.h ==> st'.u[a] <= |infos| && (infos + [f])[st'.u[a]].prefix <= pi
  {
    hide Lsb, Rung;
    var st' := PushStack(st, |infos|, i);
    forall a | 0 <= a <= st'.h
      ensures st'.u[a] <= |infos| && (infos + [f])[st'.u[a]].prefix <= pi
    {
      if a <= st.h {
        PrefixTrans(infos[st.u[a]].prefix, infos[st.u[st.h]].prefix, pi);
      }
    }
  }

  lemma PrefixTrans(a: seq<bool>, b: seq<bool>, c: seq<bool>)
    requires a <= b <= c
    ensures a <= c
  {
  }

  lemma PushFinished(cx: Ctx, infos: seq<Info>, st: Stack, i: nat, p: nat, f: Info)
    requires Chain(cx, infos, st) && 0 <= st.h < BMAX - 1
    requires Finished(infos, st, p)
    ensures Finished(infos + [f], PushStack(st, |infos|, i), p)
  {
    var infos' := infos + [f];
    var st' := PushStack(st, |infos|, i);
    assert OnStack(st', |infos|) by {
      assert st'.u[st'.h] == |infos|;
    }
    forall t | 0 <= t < |infos'| && !OnStack(st', t)
      ensures |infos'[t].prefix| <= BMAX && Hi(BMAX, infos'[t].prefix) <= p
    {
      forall a | 0 <= a <= st.h
        ensures st.u[a] != t
      {
        assert st'.u[a] == st.u[a];
      }
      assert !OnStack(st, t);
    }
  }

  lemma PushFits(cx: Ctx, arena: Arena, infos: seq<Info>, arena': Arena, infos': seq<Info>, parent: nat,
                 pi: seq<bool>, bits: nat)
    requires Pushes(cx, arena, infos, arena', infos', parent, pi, bits) && Fits(cx, Info(pi, bits, 0))
    requires forall t :: 0 <= t < |infos| ==> Fits(cx, infos[t])
    ensures forall t :: 0 <= t < |infos'| ==> Fits(cx, infos'[t])
  {
    hide Lo, Hi, Lsb, Pow2, Shape, PushArena;
    assert Fits(cx, Info(pi, bits, parent));
  }

  lemma PushTables(cx: Ctx, arena: Arena, infos: seq<Info>, st: Stack, pi: seq<bool>, bits: nat, arena': Arena,
                   infos': seq<Info>)
    requires Chain(cx, infos, st) && st.h >= 0
    requires Pushes(cx, arena, infos, arena', infos', st.u[st.h], pi, bits)
    requires Tables(cx, arena, infos, Lo(BMAX, pi)) && Finished(infos, st, Lo(BMAX, pi))
    requires Fits(cx, Info(pi, bits, 0))
    ensures Tables(cx, arena', infos', Lo(BMAX, pi))
  {
    hide Lo, Hi, Lsb, Pow2, SlotDone, Linked, MissingLink, Finished, Rung, DoneBefore, AllLinked, HolesUnset, Shape;
    PushFits(cx, arena, infos, arena', infos', st.u[st.h], pi, bits);
    PushDone(cx, arena, infos, arena', infos', st.u[st.h], pi, bits);
    PushHoles(cx, arena, infos, arena', infos', st.u[st.h], pi, bits);
    PushLinked(cx, arena, infos, arena', infos', st, pi, bits);
  }

  /** The slot of the parent that huft_build links the new table from: the code without its first w - l bits. */
  lemma PushPlace(cx: Ctx, f: Info, i: nat, k: nat, p: nat, cur: seq<bool>, w: nat, pi: seq<bool>)
    requires Fits(cx, f) && |f.prefix| == w && w + f.bits <= BMAX && f.prefix <= cur
    requires 1 <= cx.l && w + cx.l < k <= cx.g <= BMAX && Base(cx.lens, k) <= p
    requires |cur| == BMAX && Msb(cur) == p && i == Lsb(cur)
    requires ZerosAfter(cur, w + cx.l) && pi == cur[..w + cx.l]
    ensures Lo(BMAX, pi) == p && Lsb(pi) == i && f.prefix <= pi && f.bits >= cx.l
    ensures Lsb(pi[w..]) < Pow2(f.bits)
  {
    PrefixOfZeros(cur, w + cx.l);
    ParentFull(cx, f, k, p, cur);
    LinkSlot(cx, f, pi);
  }

  lemma PushSubTables(cx: Ctx, arena: Arena, infos: seq<Info>, st: Stack, i: nat, k: nat, p: nat, cur: seq<bool>,
                      parent: nat, w: nat, pi: seq<bool>, bits: nat, ix: nat)
    returns (arena': Arena, infos': seq<Info>)
    requires AtCode(cx, arena, infos, st, i, k, p, cur) && st.h >= 0
    requires parent == st.u[st.h] && w == |infos[parent].prefix| && k > w + cx.l && pi == cur[..w + cx.l]
    requires Sized(cx, k, p, pi, bits) && ix == Lsb(pi[w..])
    ensures ix < |arena[parent]| && arena' == PushArena(cx, arena, parent, ix, bits)
    ensures infos' == infos + [Info(pi, bits, parent)]
    ensures Tables(cx, arena', infos', p) && 1 <= cx.l && cx.g <= BMAX
    ensures infos[parent].prefix <= pi && i == Lsb(pi)
  {
    hide Finished, Rung, DoneBefore, AllLinked, HolesUnset, Lo, Hi, Lsb, Msb, Base;
    PushPlace(cx, infos[parent], i, k, p, cur, w, pi);
    arena', infos' := PushArena(cx, arena, parent, ix, bits), infos + [Info(pi, bits, parent)];
    PushTables(cx, arena, infos, st, pi, bits, arena', infos');
  }

  /** One round of the loop for a table that hangs from the one on top of the stack. */
  lemma PushSub(cx: Ctx, arena: Arena, infos: seq<Info>, st: Stack, i: nat, k: nat, p: nat, cur: seq<bool>,
                parent: nat, w: nat, pi: seq<bool>, bits: nat, ix: nat)
    returns (arena': Arena, infos': seq<Info>)
    requires AtCode(cx, arena, infos, st, i, k, p, cur) && st.h >= 0
    requires parent == st.u[st.h] && w == |infos[parent].prefix| && k > w + cx.l && pi == cur[..w + cx.l]
    requires Sized(cx, k, p, pi, bits) && ix == Lsb(pi[w..])
    ensures ix < |arena[parent]| && arena' == PushArena(cx, arena, parent, ix, bits)
    ensures infos' == infos + [Info(pi, bits, parent)]
    ensures st.h < BMAX - 1 && AtCode(cx, arena', infos', PushStack(st, |infos|, i), i, k, p, cur)
  {
    hide Tables, Finished, Rung, Sized, Lo, Hi, Lsb, Msb, Base, PushArena, PushStack;
    var f := Info(pi, bits, parent);
    arena', infos' := PushSubTables(cx, arena, infos, st, i, k, p, cur, parent, w, pi, bits, ix);
    PushChain(cx, infos, st, i, pi, f);
    PushFinished(cx, infos, st, i, p, f);
    NextZeros(cur, w + cx.l, cx.l, k);
    PushTop(cx, arena', infos, st, f, i, k, p, cur);
  }

  /** At the code still, with the new table on top. */
  lemma PushTop(cx: Ctx, arena: Arena, infos: seq<Info>, st: Stack, f: Info, i: nat, k: nat, p: nat, cur: seq<bool>)
    requires 0 <= st.h < BMAX - 1 && |st.u| == BMAX && |st.x| == BMAX + 1
    requires Tables(cx, arena, infos + [f], p) && Chain(cx, infos + [f], PushStack(st, |infos|, i))
    requires Finished(infos + [f], PushStack(st, |infos|, i), p)
    requires |cur| == BMAX && Msb(cur) == p && f.prefix <= cur && |f.prefix| < k
    requires i == Lsb(cur) && 1 <= k <= cx.g && ZerosAfter(cur, k) && Base(cx.lens, k) <= p
    requires k > |f.prefix| + cx.l ==> ZerosAfter(cur, |f.prefix| + cx.l)
    ensures AtCode(cx, arena, infos + [f], PushStack(st, |infos|, i), i, k, p, cur)
  {
    hide Tables, Chain, Finished, ZerosAfter, Lsb, Msb, Base;
    AtNewTop(cx, arena, infos + [f], PushStack(st, |infos|, i), i, k, p, cur);
  }

  lemma NextZeros(cur: seq<bool>, m: nat, l: nat, k: nat)
    requires ZerosAfter(cur, m) && k <= |cur|
    ensures k > m + l ==> ZerosAfter(cur, m + l)
  {
    if k > m + l {
      ZerosAfterMore(cur, m, m + l);
    }
  }

  lemma AtNewTop(cx: Ctx, arena: Arena, infos: seq<Info>, st: Stack, i: nat, k: nat, p: nat, cur: seq<bool>)
    requires Tables(cx, arena, infos, p) && Chain(cx, infos, st) && Finished(infos, st, p) && st.h >= 0
    requires |cur| == BMAX && Msb(cur) == p && infos[st.u[st.h]].prefix <= cur && |infos[st.u[st.h]].prefix| < k
    requires i == Lsb(cur) && 1 <= k <= cx.g && ZerosAfter(cur, k) && Base(cx.lens, k) <= p
    requires k > |infos[st.u[st.h]].prefix| + cx.l ==> ZerosAfter(cur, |infos[st.u[st.h]].prefix| + cx.l)
    ensures AtCode(cx, arena, infos, st, i, k, p, cur)
  {
  }
}

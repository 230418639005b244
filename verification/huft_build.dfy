/**
 huft_build (boot/zBoot/inflate.c): from code lengths to lookup tables.
 */
module HuftBuild {
  import opened Basics
  import opened Bits
  import opened Huffman
  import opened HuftTables
  import opened HuftProgress
  import opened HuftLayout
  import opened HuftSort
  import opened HuftPush
  import opened HuftPlace
  import opened HuftMake
  import opened HuftBackup
  import opened HuftWide

  // ------------------------------------------------------------------
  // The entry of one code

  lemma RealCode(lens: Lengths, v: seq<nat>, k: nat, r: nat)
    requires SortedByLength(lens, v) && 1 <= k <= BMAX && r < Count(lens, k)
    ensures Off(lens, k) + r < Off(lens, BMAX + 1) <= |lens| && Off(lens, k) + r < |v|
    ensures var sym := v[Off(lens, k) + r]; sym < |lens| && lens[sym] == k && Rank(lens, sym) == r
  {
    assert SortedAt(lens, v, k, Off(lens, k) + r);
    OffMonotone(lens, k, BMAX + 1);
    OffTotal(lens);
  }

  lemma CodeOfRank(lens: Lengths, sym: nat, k: nat, r: nat)
    requires sym < |lens| && lens[sym] == k >= 1 && Rank(lens, sym) == r
    ensures Used(lens, sym) && Code(lens, sym) == MsbBits(NextCode(lens, k) + r, k)
  {
  }

  lemma DummyCode(cx: Ctx, c: seq<nat>, k: nat, r: nat, cs: seq<bool>)
    requires Filling(cx, c) && 1 <= k <= cx.g && Count(cx.lens, k) <= r < c[k]
    requires |cs| == k && Lo(BMAX, cs) == At(cx.lens, k, r)
    ensures k == cx.g && Kraft(cx.lens) <= Lo(BMAX, cs)
    ensures Off(cx.lens, k) + r >= Off(cx.lens, BMAX + 1)
  {
    hide Pow2, NextCode, Count, Kraft, Msb;
    assert k == cx.g;
    KraftAtLongest(cx, c);
    OffAboveLongest(cx, k + 1);
    AfterLastCode(NextCode(cx.lens, k), Count(cx.lens, k), r, Pow2(BMAX - k));
  }

  lemma KraftAtLongest(cx: Ctx, c: seq<nat>)
    requires Filling(cx, c) && 1 <= cx.g <= BMAX
    ensures Kraft(cx.lens) == End(cx.lens, cx.g)
  {
  }

  lemma AfterLastCode(n: nat, c: nat, r: nat, d: nat)
    requires c <= r
    ensures n * d + c * d <= (n + r) * d
  {
    MulDistributes(n, c, d);
    MulScale(n + c, n + r, d);
  }

  lemma {:induction false} OffAboveLongest(cx: Ctx, k: nat)
    requires CtxOK(cx) && cx.g < k <= BMAX + 1
    ensures Off(cx.lens, k) == Off(cx.lens, BMAX + 1)
    decreases BMAX + 1 - k
  {
    if k <= BMAX {
      CountZero(cx.lens, k);
      OffAboveLongest(cx, k + 1);
    }
  }

  lemma UnusedSymbol(lens: Lengths)
    requires Off(lens, BMAX + 1) < |lens|
    ensures !AllUsed(lens)
  {
    OffTotal(lens);
    CountZero(lens, 0);
  }

  /** The r-th code of length k in v, or what stands for a code no symbol has. */
  ghost predicate EntryIndex(lens: Lengths, k: nat, r: nat, at: nat) {
    at == Min(Off(lens, k) + r, |lens|)
  }

  /**
   Set up the table entry: an invalid code when v has run out, the symbol's meaning
   otherwise. Slots of v between the used symbols and n were never written.
   */
  method MakeEntry(ghost cx: Ctx, c: seq<nat>, lens: Lengths, m: Meaning, v: seq<nat>, at0: nat, k: nat, w: nat,
                   ghost r: nat, ghost cs: seq<bool>) returns (e: Huft, at: nat)
    requires Filling(cx, c) && SortedByLength(lens, v) && lens == cx.lens && m == cx.m && |lens| <= N_MAX
    requires c[0] == Count(lens, 0)
    requires 1 <= k <= cx.g && r < c[k] && w < k <= w + cx.l && EntryIndex(lens, k, r, at0)
    requires cs == MsbBits(NextCode(lens, k) + r, k) && Lo(BMAX, cs) == At(lens, k, r)
    ensures GoodEntry(cx, w, cs, e) && EntryIndex(lens, k, r + 1, at)
  {
    hide GoodEntry, Lo, Kraft, Code, Pow2, Off, NextCode, Count, Msb, MsbBits, SortedByLength;
    NextIndex(lens, k, r, at0);
    if r < Count(lens, k) {
      RealEntry(cx, c, v, at0, k, w, r, cs);
    } else {
      DummyEntry(cx, c, at0, k, w, r, cs);
    }
    if at0 >= |lens| {
      e, at := Entry(99, k - w, 0), at0;
    } else if at0 >= |lens| - c[0] {
      e, at := Unset, at0 + 1;
    } else {
      e, at := SymEntry(m, v[at0], k - w), at0 + 1;
    }
  }

  lemma NextIndex(lens: Lengths, k: nat, r: nat, at: nat)
    requires EntryIndex(lens, k, r, at)
    ensures EntryIndex(lens, k, r + 1, if at >= |lens| then at else at + 1)
  {
    hide Off;
  }

  /** The r-th code of length k is that of the symbol v names next. */
  lemma RealEntry(cx: Ctx, c: seq<nat>, v: seq<nat>, at: nat, k: nat, w: nat, r: nat, cs: seq<bool>)
    requires Filling(cx, c) && SortedByLength(cx.lens, v) && c[0] == Count(cx.lens, 0)
    requires 1 <= k <= cx.g && r < Count(cx.lens, k) && w < k <= w + cx.l && EntryIndex(cx.lens, k, r, at)
    requires cs == MsbBits(NextCode(cx.lens, k) + r, k)
    ensures at < |cx.lens| - c[0] && at < |v| && v[at] < |cx.lens| && MeaningFor(cx.m, |cx.lens|)
    ensures GoodEntry(cx, w, cs, SymEntry(cx.m, v[at], k - w))
  {
    hide Lo, Kraft, Code, Pow2, Off, NextCode, Rank, Count, Msb, MsbBits, SymEntry, SortedByLength, Oversubscribed;
    OffTotal(cx.lens);
    RealCode(cx.lens, v, k, r);
    CodeOfRank(cx.lens, v[at], k, r);
    assert CodeEntry(cx, w, cs, SymEntry(cx.m, v[at], k - w));
  }

  /** Codes of the longest length beyond those in use get entries that no input may reach. */
  lemma DummyEntry(cx: Ctx, c: seq<nat>, at: nat, k: nat, w: nat, r: nat, cs: seq<bool>)
    requires Filling(cx, c) && c[0] == Count(cx.lens, 0)
    requires 1 <= k <= cx.g && Count(cx.lens, k) <= r < c[k] && w < k <= w + cx.l && EntryIndex(cx.lens, k, r, at)
    requires |cs| == k && Lo(BMAX, cs) == At(cx.lens, k, r)
    ensures at >= |cx.lens| - c[0]
    ensures at < |cx.lens| ==> GoodEntry(cx, w, cs, Unset)
    ensures at >= |cx.lens| ==> GoodEntry(cx, w, cs, Entry(99, k - w, 0))
  {
    hide Lo, Kraft, Pow2, Off, NextCode, Count, Msb, CodeEntry, Oversubscribed;
    OffTotal(cx.lens);
    DummyCode(cx, c, k, r, cs);
    if at < |cx.lens| {
      UnusedSymbol(cx.lens);
    }
  }

  // ------------------------------------------------------------------
  // Between two codes

  ghost predicate AtNext(cx: Ctx, infos: seq<Info>, st: Stack, i: nat, k: nat, p: nat, cur: seq<bool>, w: int, q: nat) {
    && Chain(cx, infos, st) && Finished(infos, st, p) && |cur| == BMAX && Msb(cur) == p
    && (st.h >= 0 ==> infos[st.u[st.h]].prefix <= cur)
    && i == Lsb(cur) && DepthIs(cx, infos, st, w) && st.x[0] == 0 && w < k
    && (k > w + cx.l ==> ZerosAfter(cur, w + cx.l))
    && (k <= w + cx.l ==> 0 <= st.h && q == st.u[st.h])
  }

  ghost predicate Between(cx: Ctx, arena: Arena, infos: seq<Info>, st: Stack, i: nat, k: nat, p: nat, cur: seq<bool>,
                          w: int, q: nat) {
    && Tables(cx, arena, infos, p)
    && Older(cx, infos, p) && WideExplained(cx, infos) && OverflowsFound(cx, infos, p)
    && (p < Pow2(BMAX) ==> AtNext(cx, infos, st, i, k, p, cur, w, q))
  }

  /** The bits of the current code. */
  ghost predicate CodeBits(cx: Ctx, k: nat, r: nat, p: nat, cur: seq<bool>, cs: seq<bool>) {
    && 1 <= k <= BMAX == |cur| && ZerosAfter(cur, k) && cs == cur[..k]
    && cs == MsbBits(NextCode(cx.lens, k) + r, k)
    && Lo(BMAX, cs) == p == At(cx.lens, k, r) && Lsb(cs) == Lsb(cur)
  }

  lemma CodeBitsOf(x: nat, k: nat, cur: seq<bool>)
    requires 1 <= k <= BMAX == |cur| && x < Pow2(k) && Msb(cur) == x * Pow2(BMAX - k) < Pow2(BMAX)
    ensures ZerosAfter(cur, k) && cur[..k] == MsbBits(x, k)
    ensures Lo(BMAX, cur[..k]) == Msb(cur) && Lsb(cur[..k]) == Lsb(cur)
    ensures Hi(BMAX, cur[..k]) == Msb(cur) + Pow2(BMAX - k)
  {
    hide Msb, Lsb, Pow2, MsbBits;
    AlignedBits(BMAX, k, x);
    BitsOfMsb(cur);
    assert cur[..k] == MsbBits(x, k);
    PrefixOfZeros(cur, k);
  }

  lemma CodeSpanOf(cx: Ctx, c: seq<nat>, k: nat, r: nat)
    requires Filling(cx, c) && 1 <= k <= cx.g && r < c[k]
    ensures CodeSpan(cx, k, At(cx.lens, k, r), At(cx.lens, k, r + 1)) && Limit(cx, k) <= Pow2(BMAX)
    ensures NextCode(cx.lens, k) + r < Pow2(k)
    ensures At(cx.lens, k, r) < At(cx.lens, k, r) + Pow2(BMAX - k) == At(cx.lens, k, r + 1) <= Pow2(BMAX)
  {
    hide Pow2, NextCode, Limit, CodeSpan;
    CodeFits(cx, c, k, r);
    SpanArithmetic(cx, k, r, NextCode(cx.lens, k), Pow2(BMAX - k), At(cx.lens, k, r), At(cx.lens, k, r + 1));
  }

  lemma SpanArithmetic(cx: Ctx, k: nat, r: nat, n: nat, d: nat, p: nat, p': nat)
    requires 1 <= cx.l && 1 <= k <= cx.g <= BMAX && d == Pow2(BMAX - k) && n == NextCode(cx.lens, k)
    requires p == (n + r) * d && p' == p + d <= Limit(cx, k)
    ensures CodeSpan(cx, k, p, p')
  {
    hide Pow2, NextCode, Limit;
    MultipleOf(n + r, d);
    MulScale(n, n + r, d);
  }

  lemma CodeBitsAt(cx: Ctx, x: nat, k: nat, r: nat, p: nat, cur: seq<bool>)
    requires 1 <= k <= BMAX == |cur| && p == Msb(cur) && x == NextCode(cx.lens, k) + r < Pow2(k)
    requires p == At(cx.lens, k, r) < Pow2(BMAX)
    ensures CodeBits(cx, k, r, p, cur, cur[..k])
    ensures Hi(BMAX, cur[..k]) == p + Pow2(BMAX - k)
  {
    hide Msb, Lsb, Pow2, MsbBits, NextCode, Lo, Hi;
    CodeBitsOf(x, k, cur);
  }

  lemma CurrentSpan(cx: Ctx, c: seq<nat>, k: nat, r: nat, a: nat, p: nat, cur: seq<bool>)
    requires CodeAt(cx, c, k, r, a, p, cur)
    ensures 1 <= k <= BMAX == |cur| && p == Msb(cur) && NextCode(cx.lens, k) + r < Pow2(k)
    ensures p == At(cx.lens, k, r) < Pow2(BMAX)
    ensures CodeSpan(cx, k, p, At(cx.lens, k, r + 1)) && Limit(cx, k) <= Pow2(BMAX)
    ensures p + Pow2(BMAX - k) == At(cx.lens, k, r + 1)
  {
    CodeSpanOf(cx, c, k, r);
  }

  lemma CurrentCode(cx: Ctx, c: seq<nat>, k: nat, r: nat, a: nat, p: nat, cur: seq<bool>)
    requires CodeAt(cx, c, k, r, a, p, cur)
    ensures CodeBits(cx, k, r, p, cur, cur[..k])
    ensures CodeSpan(cx, k, p, At(cx.lens, k, r + 1)) && Limit(cx, k) <= Pow2(BMAX)
    ensures Hi(BMAX, cur[..k]) == At(cx.lens, k, r + 1)
  {
    CurrentSpan(cx, c, k, r, a, p, cur);
    CodeBitsAt(cx, NextCode(cx.lens, k) + r, k, r, p, cur);
  }

  lemma BeforeCode(cx: Ctx, c: seq<nat>, arena: Arena, infos: seq<Info>, st: Stack, i: nat, k: nat, p: nat,
                   cur: seq<bool>, w: int, q: nat, r: nat, a: nat)
    requires Tables(cx, arena, infos, p) && AtNext(cx, infos, st, i, k, p, cur, w, q)
    requires 1 <= k <= |cur| && CodeBits(cx, k, r, p, cur, cur[..k]) && CodeSpan(cx, k, p, At(cx.lens, k, r + 1))
    ensures Making(cx, arena, infos, infos, st, i, k, p, cur, w)
  {
    DepthOf(cx, infos, st, w);
  }

  /** The table on top has room for the current code. */
  lemma CodeFitsTable(cx: Ctx, f: Info, k: nat, p: nat, cur: seq<bool>)
    requires Fits(cx, f) && |f.prefix| < k <= |f.prefix| + cx.l && k <= cx.g <= BMAX
    requires |cur| == BMAX && Msb(cur) == p && f.prefix <= cur && Base(cx.lens, k) <= p
    ensures k <= |f.prefix| + f.bits
  {
    var n := |f.prefix| + f.bits;
    if n < k {
      BaseOrder(cx.lens, n + 1, k);
      assert Lo(BMAX, cur) == p;
      PrefixIffInside(BMAX, f.prefix, cur);
    }
  }

  /** The tables after the slots of the current code are filled. */
  lemma AfterFill(cx: Ctx, arena: Arena, arena': Arena, infos: seq<Info>, st: Stack, p: nat, cs: seq<bool>, e: Huft)
    requires Tables(cx, arena, infos, p) && Chain(cx, infos, st) && Finished(infos, st, p)
    requires Fills(cx, arena, arena', infos, st, cs, e) && Lo(BMAX, cs) == p
    requires GoodEntry(cx, |infos[st.u[st.h]].prefix|, cs, e)
    ensures Tables(cx, arena', infos, Hi(BMAX, cs))
  {
    hide Lo, Hi, SlotDone, Linked, MissingLink;
    AdvanceDone(cx, arena, arena', infos, st, cs, e);
    AdvanceLinked(cx, arena, arena', infos, st, cs, e);
    AdvanceHoles(cx, arena, arena', infos, st, cs, e);
  }

  /** The slots to fill start at the code without its first w bits and are 2^(k - w) apart. */
  lemma FillPlace(cs: seq<bool>, i: nat, w: nat)
    requires w < |cs| && i == Lsb(cs)
    ensures i / Pow2(w) == Lsb(cs[w..]) < Pow2(|cs| - w)
  {
    LsbSplit(cs, w);
  }

  method FillCode(ghost cx: Ctx, arena0: Arena, st: Stack, q: nat, i: nat, k: nat, w: nat, e: Huft,
                  ghost infos: seq<Info>, ghost p: nat, ghost cur: seq<bool>, ghost cs: seq<bool>)
    returns (arena: Arena)
    requires AtCode(cx, arena0, infos, st, i, k, p, cur) && st.h >= 0 && q == st.u[st.h] && w == |infos[q].prefix|
    requires w < k <= w + cx.l && cs == cur[..k] && Lo(BMAX, cs) == p && i == Lsb(cs)
    requires GoodEntry(cx, w, cs, e)
    ensures Tables(cx, arena, infos, Hi(BMAX, cs))
  {
    hide Tables, Chain, Finished, Lsb, Lo, Hi, GoodEntry, Filled, Fills, Pow2, Base, ZerosAfter;
    FillFacts(cx, arena0, st, i, k, p, cur, w, infos, cs);
    FillPlace(cs, i, w);
    var row := FillSlots(arena0[q], i / Pow2(w), Pow2(k - w), e);
    arena := arena0[q := row];
    FilledSlots(infos[q], cs, e, arena0[q], row);
    FillsTop(cx, arena0, arena, infos, st, cs, e);
    AfterFill(cx, arena0, arena, infos, st, p, cs, e);
  }

  lemma FillFacts(cx: Ctx, arena: Arena, st: Stack, i: nat, k: nat, p: nat, cur: seq<bool>, w: nat, infos: seq<Info>,
                  cs: seq<bool>)
    requires AtCode(cx, arena, infos, st, i, k, p, cur) && st.h >= 0 && w == |infos[st.u[st.h]].prefix|
    requires w < k <= w + cx.l && cs == cur[..k]
    ensures Tables(cx, arena, infos, p) && Chain(cx, infos, st) && Finished(infos, st, p) && cx.l >= 1
    ensures Shape(cx, arena, infos) && st.h < |st.u|
    ensures var f := infos[st.u[st.h]];
      f.prefix <= cs && k <= w + f.bits && st.u[st.h] < |arena| && |arena[st.u[st.h]]| == Pow2(f.bits)
  {
    CodeFitsTable(cx, infos[st.u[st.h]], k, p, cur);
  }

  lemma FillsTop(cx: Ctx, arena: Arena, arena': Arena, infos: seq<Info>, st: Stack, cs: seq<bool>, e: Huft)
    requires Shape(cx, arena, infos) && Chain(cx, infos, st) && st.h >= 0 && cx.l >= 1
    requires var q := st.u[st.h];
      && infos[q].prefix <= cs && |infos[q].prefix| < |cs| <= |infos[q].prefix| + infos[q].bits
      && |arena'| == |arena| && arena' == arena[q := arena'[q]]
      && Filled(infos[q], cs, e, arena[q], arena'[q])
    ensures Fills(cx, arena, arena', infos, st, cs, e)
  {
  }

  /** The next code, with its bit string unless the current one was the last. */
  lemma NextPosition(cs: seq<bool>) returns (cur': seq<bool>)
    requires 1 <= |cs| <= BMAX
    ensures PastCode(cs, Hi(BMAX, cs), cur') && Lsb(cur') == Lsb(Inc(cs))
  {
    cur' := Inc(cs) + Zeros(BMAX - |cs|);
    LsbZeros(Inc(cs), BMAX - |cs|);
    LoZeros(Inc(cs), BMAX - |cs|);
    assert Lo(BMAX, cur') == Msb(cur');
    IncPosition(BMAX, cs);
  }

  lemma IncPosition(g: nat, cs: seq<bool>)
    requires 1 <= |cs| <= g
    ensures Hi(g, cs) < Pow2(g) ==> Lo(g, Inc(cs)) == Hi(g, cs)
  {
    hide Msb, Lsb, Pow2, Inc;
    IncValue(cs);
    Pow2Add(|cs|, g - |cs|);
    NextMultipleIs(Msb(cs), Pow2(|cs|), Pow2(g - |cs|));
  }

  lemma NextMultipleIs(m: nat, n: nat, d: nat)
    ensures (m + 1) * d == m * d + d
    ensures m + 1 == n ==> m * d + d == n * d
  {
    MulDistributes(m, 1, d);
  }

  // ------------------------------------------------------------------
  // One code

  lemma WideStep(cx: Ctx, arena: Arena, infos0: seq<Info>, infos: seq<Info>, st: Stack, i: nat, k: nat, p: nat, p': nat,
                 cur: seq<bool>, w: nat)
    requires Making(cx, arena, infos0, infos, st, i, k, p, cur, w) && st.h >= 0 && k <= w + cx.l
    requires CodeSpan(cx, k, p, p') && Limit(cx, k) <= Pow2(BMAX)
    requires Older(cx, infos0, p) && WideExplained(cx, infos0) && OverflowsFound(cx, infos0, p)
    ensures Older(cx, infos, p') && WideExplained(cx, infos) && OverflowsFound(cx, infos, p')
  {
    forall t | 0 < t < |infos|
      ensures |infos[t].prefix| >= 1
    {
      assert Linked(cx, arena, infos, t);
    }
    hide Linked, Overflows, OverflowsBefore, Lo, WideGap, IsWide, OverflowsAt, WideAt;
    OlderStep(cx, infos0, infos, k, p, p');
    WideExplainedStep(cx, infos0, infos, k, p, p');
    OverflowsFoundStep(cx, infos0, infos, st, k, p, p', cur);
  }

  lemma ReadyToLeave(cx: Ctx, arena: Arena, infos0: seq<Info>, infos: seq<Info>, st: Stack, i: nat, k: nat, p: nat,
                     cur: seq<bool>, w: nat, cs: seq<bool>, p': nat)
    requires Making(cx, arena, infos0, infos, st, i, k, p, cur, w) && st.h >= 0
    requires w < k <= |cur| && cs == cur[..k] && p <= p'
    ensures Leaving(cx, infos, st, w, cs, p') && |infos| > 0 && infos[0].prefix == []
    ensures w == |infos[st.u[st.h]].prefix| && st.x[0] == 0
  {
  }

  lemma AfterLeave(cx: Ctx, infos: seq<Info>, st: Stack, st0: Stack, i: nat, k: nat, p: nat, cur: seq<bool>, w: nat,
                   w0: nat, q: nat, cs: seq<bool>)
    requires Leaving(cx, infos, st, w, cs, p) && PastCode(cs, p, cur) && p < Pow2(BMAX) && i == Lsb(cur)
    requires infos[st.u[st.h]].prefix <= cur && st.x[0] == 0
    requires w <= w0 && (w == w0 ==> st == st0) && w0 < k <= w0 + cx.l && 0 <= st0.h < |st0.u| && q == st0.u[st0.h]
    requires w < w0 ==> w + cx.l <= w0 && ZerosAfter(cur, w + cx.l)
    ensures AtNext(cx, infos, st, i, k, p, cur, w, q)
  {
  }

  /** What is fixed while the tables are built. */
  ghost predicate Building(cx: Ctx, c: seq<nat>, lens: Lengths, m: Meaning, v: seq<nat>, g: nat, l: nat) {
    && Filling(cx, c) && c[0] == Count(lens, 0) && SortedByLength(lens, v) && |lens| <= N_MAX
    && lens == cx.lens && m == cx.m && g == cx.g && l == cx.l
  }

  /** Make the tables the current code needs, and fill its slots. */
  method EnterCode(ghost cx: Ctx, c: seq<nat>, lens: Lengths, m: Meaning, v: seq<nat>, k: nat, a: nat, g: nat, l: nat,
                   i: nat, arena0: Arena, st0: Stack, w0: int, q0: nat, at0: nat,
                   ghost infos0: seq<Info>, ghost r: nat, ghost p: nat, ghost cur: seq<bool>)
    returns (arena: Arena, st: Stack, w: nat, q: nat, at: nat, ghost infos: seq<Info>, ghost arena1: Arena)
    requires Building(cx, c, lens, m, v, g, l)
    requires CodeAt(cx, c, k, r, a, p, cur)
    requires Tables(cx, arena0, infos0, p) && AtNext(cx, infos0, st0, i, k, p, cur, w0, q0)
    requires EntryIndex(lens, k, r, at0)
    ensures Making(cx, arena1, infos0, infos, st, i, k, p, cur, w)
    ensures w < k <= w + l && 0 <= st.h < |st.u| && q == st.u[st.h] && |infos| > 0
    ensures Tables(cx, arena, infos, At(lens, k, r + 1)) && EntryIndex(lens, k, r + 1, at)
  {
    hide AtNext, Lo, Hi, Tables, Filling, CodeSpan, Limit, GoodEntry, Making, EntryIndex, Pow2, Lsb, Msb, MsbBits;
    hide NextCode, Kraft, Count;
    CurrentCode(cx, c, k, r, a, p, cur);
    BeforeCode(cx, c, arena0, infos0, st0, i, k, p, cur, w0, q0, r, a);
    ReuseTop(cx, infos0, st0, i, k, p, cur, w0, q0);
    var made;
    made, st, w, q, infos := MakeTables(cx, c, k, a, g, l, i, arena0, st0, w0, q0, infos0, r, p, cur);
    arena1 := made;
    var e;
    e, at := MakeEntry(cx, c, lens, m, v, at0, k, w, r, cur[..k]);
    TopOf(cx, made, infos0, infos, st, i, k, p, cur, w);
    arena := FillCode(cx, made, st, q, i, k, w, e, infos, p, cur, cur[..k]);
  }

  /** Step to the next code and leave the tables it is past. */
  method NextCodeAndTable(ghost cx: Ctx, k: nat, l: nat, i0: nat, st0: Stack, w0: nat,
                          ghost arena1: Arena, ghost infos0: seq<Info>, ghost infos: seq<Info>, ghost q: nat,
                          ghost p: nat, ghost p': nat, ghost cur: seq<bool>)
    returns (i: nat, st: Stack, w: nat, ghost cur': seq<bool>)
    requires Making(cx, arena1, infos0, infos, st0, i0, k, p, cur, w0) && l == cx.l
    requires w0 < k <= w0 + l && 0 <= st0.h < |st0.u| && q == st0.u[st0.h]
    requires 1 <= k <= BMAX == |cur| && p <= p' == Hi(BMAX, cur[..k]) && Lsb(cur[..k]) == Lsb(cur)
    ensures p' < Pow2(BMAX) ==> AtNext(cx, infos, st, i, k, p', cur', w, q)
  {
    hide AtNext, Lo, Hi, Making, PastCode;
    ghost var cs := cur[..k];
    TopOf(cx, arena1, infos0, infos, st0, i0, k, p, cur, w0);
    ReadyToLeave(cx, arena1, infos0, infos, st0, i0, k, p, cur, w0, cs, p');
    i := ReverseIncrement(i0, k, cs);
    cur' := NextPosition(cs);
    HasLength(cs, p', cur');
    st, w := BackUp(cx, i, l, st0, w0, infos, cs, p', cur');
    if p' < Pow2(BMAX) {
      AfterLeave(cx, infos, st, st0, i, k, p', cur', w, w0, q, cs);
    }
  }

  lemma HasLength(cs: seq<bool>, p: nat, cur: seq<bool>)
    requires PastCode(cs, p, cur) && |cs| >= 1
    ensures |cur| == BMAX
  {
  }

  /** Hands out one code: makes its tables and entry, fills its slots, steps on and leaves finished tables. */
  method PlaceCode(ghost cx: Ctx, c: seq<nat>, lens: Lengths, m: Meaning, v: seq<nat>, k: nat, a: nat, g: nat, l: nat,
                   i0: nat, arena0: Arena, st0: Stack, w0: int, q0: nat, at0: nat,
                   ghost infos0: seq<Info>, ghost r: nat, ghost p: nat, ghost cur: seq<bool>)
    returns (i: nat, arena: Arena, st: Stack, w: int, q: nat, at: nat, ghost infos: seq<Info>, ghost cur': seq<bool>)
    requires Building(cx, c, lens, m, v, g, l)
    requires CodeAt(cx, c, k, r, a, p, cur) && Between(cx, arena0, infos0, st0, i0, k, p, cur, w0, q0)
    requires EntryIndex(lens, k, r, at0) && p < Pow2(BMAX)
    ensures Between(cx, arena, infos, st, i, k, At(lens, k, r + 1), cur', w, q)
    ensures EntryIndex(lens, k, r + 1, at) && |infos| > 0
  {
    hide AtNext, Lo, Hi, Tables, Limit, At, WideExplained, OverflowsFound, Older, Making, EntryIndex;
    hide CodeBits, CodeSpan;
    ghost var p' := At(lens, k, r + 1);
    CurrentSpan(cx, c, k, r, a, p, cur);
    CurrentCode(cx, c, k, r, a, p, cur);
    var st1, w1;
    ghost var arena1;
    arena, st1, w1, q, at, infos, arena1 :=
      EnterCode(cx, c, lens, m, v, k, a, g, l, i0, arena0, st0, w0, q0, at0, infos0, r, p, cur);
    SameLsb(cx, k, r, p, cur);
    var w2;
    i, st, w2, cur' := NextCodeAndTable(cx, k, l, i0, st1, w1, arena1, infos0, infos, q, p, p', cur);
    w := w2;
    WideStep(cx, arena1, infos0, infos, st1, i0, k, p, p', cur, w1);
  }

  lemma SameLsb(cx: Ctx, k: nat, r: nat, p: nat, cur: seq<bool>)
    requires 1 <= k <= |cur| && CodeBits(cx, k, r, p, cur, cur[..k])
    ensures Lsb(cur[..k]) == Lsb(cur)
  {
  }

  lemma ReuseTop(cx: Ctx, infos: seq<Info>, st: Stack, i: nat, k: nat, p: nat, cur: seq<bool>, w: int, q: nat)
    requires AtNext(cx, infos, st, i, k, p, cur, w, q)
    ensures k <= w + cx.l ==> 0 <= st.h < |st.u| && q == st.u[st.h] && 0 <= w < k
  {
  }

  lemma TopOf(cx: Ctx, arena: Arena, infos0: seq<Info>, infos: seq<Info>, st: Stack, i: nat, k: nat, p: nat,
              cur: seq<bool>, w: nat)
    requires Making(cx, arena, infos0, infos, st, i, k, p, cur, w) && st.h >= 0
    ensures AtCode(cx, arena, infos, st, i, k, p, cur) && w == |infos[st.u[st.h]].prefix| && i == Lsb(cur)
    ensures |infos| > 0
  {
  }

  // ------------------------------------------------------------------
  // All codes

  lemma BaseIsAt(lens: Lengths, k: nat)
    requires 1 <= k <= BMAX
    ensures At(lens, k, 0) == Base(lens, k)
  {
  }

  lemma NextLength(cx: Ctx, c: seq<nat>, arena: Arena, infos: seq<Info>, st: Stack, i: nat, k: nat, p: nat,
                   cur: seq<bool>, w: int, q: nat)
    requires Filling(cx, c) && 1 <= k < cx.g && p == At(cx.lens, k, c[k])
    requires Between(cx, arena, infos, st, i, k, p, cur, w, q)
    ensures Between(cx, arena, infos, st, i, k + 1, p, cur, w, q)
    ensures p == At(cx.lens, k + 1, 0)
  {
    hide Pow2, NextCode, Count, Kraft, AtNext, Tables, Older, WideExplained, OverflowsFound, Limit, Base;
    BaseIsAt(cx.lens, k + 1);
    LimitIs(cx, c, k);
    if p < Pow2(BMAX) {
      NextAligned(cx, infos, st, i, k, p, cur, w, q, NextCode(cx.lens, k) + c[k]);
    }
  }

  lemma NextAligned(cx: Ctx, infos: seq<Info>, st: Stack, i: nat, k: nat, p: nat, cur: seq<bool>, w: int, q: nat,
                    x: nat)
    requires AtNext(cx, infos, st, i, k, p, cur, w, q) && k < BMAX && x * Pow2(BMAX - k) == p < Pow2(BMAX)
    ensures AtNext(cx, infos, st, i, k + 1, p, cur, w, q)
  {
    hide Pow2, Lsb, Finished, Chain;
    MultipleIsAligned(x, k, cur);
  }

  lemma InLength(cx: Ctx, c: seq<nat>, arena: Arena, infos: seq<Info>, st: Stack, i: nat, k: nat, r: nat, p: nat,
                 cur: seq<bool>, w: int, q: nat)
    requires Filling(cx, c) && 1 <= k <= cx.g && r < c[k] && p == At(cx.lens, k, r)
    requires Between(cx, arena, infos, st, i, k, p, cur, w, q)
    ensures p < Pow2(BMAX) && CodeAt(cx, c, k, r, c[k] - r - 1, p, cur)
  {
    CodeSpanOf(cx, c, k, r);
  }

  lemma StartState(cx: Ctx, shortest: nat, u: seq<nat>, x: seq<nat>)
    requires CtxOK(cx) && 1 <= shortest <= BMAX && |u| == BMAX && |x| == BMAX + 1 && x[0] == 0
    ensures Between(cx, [], [], Stack(u, x, -1), 0, shortest, 0, Zeros(BMAX), 0 - cx.l, 0)
  {
    ZerosValue(BMAX);
    assert Zeros(BMAX)[..0] + Zeros(BMAX) == Zeros(BMAX);
    assert ZerosAfter(Zeros(BMAX), 0);
  }

  /** Hand out all codes of length `k`. */
  method PlaceLength(ghost cx: Ctx, c: seq<nat>, lens: Lengths, m: Meaning, v: seq<nat>, k: nat, g: nat, l: nat,
                     i0: nat, arena0: Arena, st0: Stack, w0: int, q0: nat, at0: nat,
                     ghost infos0: seq<Info>, ghost cur0: seq<bool>)
    returns (i: nat, arena: Arena, st: Stack, w: int, q: nat, at: nat, ghost infos: seq<Info>, ghost cur: seq<bool>)
    requires Building(cx, c, lens, m, v, g, l) && 1 <= k <= g
    requires Between(cx, arena0, infos0, st0, i0, k, At(lens, k, 0), cur0, w0, q0) && EntryIndex(lens, k, 0, at0)
    ensures Between(cx, arena, infos, st, i, k, At(lens, k, c[k]), cur, w, q) && EntryIndex(lens, k, c[k], at)
    ensures c[k] > 0 ==> |infos| > 0
    ensures c[k] == 0 ==> infos == infos0
  {
    hide Between, At, EntryIndex, CodeAt, NextCode, Count, Pow2, SortedByLength, Oversubscribed, MeaningFor, Kraft, End;
    i, arena, st, w, q, at, infos, cur := i0, arena0, st0, w0, q0, at0, infos0, cur0;
    var a := c[k];
    while a > 0
      invariant 0 <= a <= c[k]
      invariant Between(cx, arena, infos, st, i, k, At(lens, k, c[k] - a), cur, w, q)
      invariant EntryIndex(lens, k, c[k] - a, at)
      invariant a < c[k] ==> |infos| > 0
      invariant a == c[k] ==> infos == infos0
    {
      ghost var r := c[k] - a;
      a := a - 1;
      InLength(cx, c, arena, infos, st, i, k, r, At(lens, k, r), cur, w, q);
      i, arena, st, w, q, at, infos, cur :=
        PlaceCode(cx, c, lens, m, v, k, a, g, l, i, arena, st, w, q, at, infos, r, At(lens, k, r), cur);
    }
  }

  /** Generate the codes in order of length and make the table entries for each. */
  method FillTables(ghost cx: Ctx, c: seq<nat>, lens: Lengths, m: Meaning, v: seq<nat>, shortest: nat, g: nat, l: nat)
    returns (arena: Arena, ghost infos: seq<Info>)
    requires Building(cx, c, lens, m, v, g, l) && 1 <= shortest <= g
    requires forall j :: 1 <= j < shortest ==> Count(lens, j) == 0
    ensures Tables(cx, arena, infos, Pow2(BMAX)) && |infos| > 0
    ensures WideExplained(cx, infos) && OverflowsFound(cx, infos, Pow2(BMAX))
  {
    hide Between, EntryIndex;
    var i, w, q, at := 0, 0 - l, 0, 0;
    var st := Stack(seq(BMAX, _ => 0), seq(BMAX + 1, _ => 0), -1);
    arena, infos := [], [];
    ghost var cur := Zeros(BMAX);
    StartState(cx, shortest, st.u, st.x);
    NextCodeBelowShortest(lens, shortest);
    FirstEntry(lens, shortest);
    SomeCode(cx, c);
    var k := shortest;
    while k < g
      invariant shortest <= k <= g
      invariant Between(cx, arena, infos, st, i, k, At(lens, k, 0), cur, w, q) && EntryIndex(lens, k, 0, at)
    {
      i, arena, st, w, q, at, infos, cur := PlaceLength(cx, c, lens, m, v, k, g, l, i, arena, st, w, q, at, infos, cur);
      NextLength(cx, c, arena, infos, st, i, k, At(lens, k, c[k]), cur, w, q);
      NextEntry(lens, k, c[k], at);
      k := k + 1;
    }
    i, arena, st, w, q, at, infos, cur := PlaceLength(cx, c, lens, m, v, g, g, l, i, arena, st, w, q, at, infos, cur);
    LimitIs(cx, c, g);
    AtEnd(cx, arena, infos, st, i, g, Pow2(BMAX), cur, w, q);
  }

  lemma FirstEntry(lens: Lengths, k: nat)
    requires k >= 1 && Off(lens, k) == 0 && NextCode(lens, k) == 0 && k <= BMAX
    ensures EntryIndex(lens, k, 0, 0) && At(lens, k, 0) == 0
  {
  }

  lemma NextEntry(lens: Lengths, k: nat, n: nat, at: nat)
    requires k >= 1 && n == Count(lens, k) && EntryIndex(lens, k, n, at)
    ensures EntryIndex(lens, k + 1, 0, at)
  {
  }

  lemma SomeCode(cx: Ctx, c: seq<nat>)
    requires Filling(cx, c)
    ensures c[cx.g] > 0
  {
    CountZero(cx.lens, cx.g);
  }

  lemma AtEnd(cx: Ctx, arena: Arena, infos: seq<Info>, st: Stack, i: nat, k: nat, p: nat, cur: seq<bool>, w: int,
              q: nat)
    requires Between(cx, arena, infos, st, i, k, p, cur, w, q)
    ensures Tables(cx, arena, infos, p) && WideExplained(cx, infos) && OverflowsFound(cx, infos, p)
  {
  }

  // ------------------------------------------------------------------
  // huft_build

  /** The first table has at least l index bits. */
  lemma RootFull(cx: Ctx, f: Info)
    requires CtxOK(cx) && Fits(cx, f) && f.prefix == []
    ensures f.bits >= cx.l
  {
    hide Pow2, Count, NextCode;
    if f.bits < cx.l {
      BaseOrder(cx.lens, f.bits + 1, cx.g);
      CountZero(cx.lens, cx.g);
      KraftIsEnd(cx.lens);
      assert Count(cx.lens, cx.g) * Pow2(BMAX - cx.g) > 0 by {
        MulScale(1, Count(cx.lens, cx.g), Pow2(BMAX - cx.g));
      }
      assert Hi(BMAX, []) == Pow2(BMAX);
      if cx.g < BMAX {
        BaseMonotone(cx.lens, cx.g, BMAX);
      }
    }
  }

  lemma WideIffOverflow(cx: Ctx, infos: seq<Info>)
    requires CtxOK(cx) && WideExplained(cx, infos) && OverflowsFound(cx, infos, Pow2(BMAX))
    ensures NoWideSubtable(cx, infos) <==> !Overflows(cx)
  {
    if Overflows(cx) {
      var k, w, x :| OverflowsAt(cx, k, w, x);
      LimitBound(cx, k);
      assert OverflowsBefore(cx, Pow2(BMAX));
    }
    if !NoWideSubtable(cx, infos) {
      var t :| 0 < t < |infos| && infos[t].bits > cx.l;
      assert IsWide(cx, infos, t);
    }
  }

  predicate IsLongest(lens: seq<nat>, g: nat) {
    g in lens && forall i :: 0 <= i < |lens| ==> lens[i] <= g
  }

  predicate IsShortest(lens: seq<nat>, j: nat) {
    j in lens && j > 0 && forall i :: 0 <= i < |lens| && lens[i] > 0 ==> lens[i] >= j
  }

  /** The lookup size asked for, raised to the shortest and lowered to the longest length. */
  function Clamp(lookup: nat, shortest: nat, longest: nat): nat {
    var raised := if lookup < shortest then shortest else lookup;
    if raised > longest then longest else raised
  }

  method Extremes(lens: Lengths, c: seq<nat>) returns (shortest: nat, longest: nat)
    requires Counts(lens, c) && !AllUnused(lens)
    ensures IsShortest(lens, shortest) && IsLongest(lens, longest) && 1 <= shortest <= longest <= BMAX
    ensures forall l :: 1 <= l < shortest || longest < l <= BMAX ==> c[l] == 0
  {
    var s :| 0 <= s < |lens| && lens[s] != 0;
    ghost var used := lens[s];
    forall l | 0 <= l <= BMAX
      ensures c[l] == 0 <==> l !in lens
    {
      CountZero(lens, l);
    }
    assert forall i :: 0 <= i < |lens| ==> lens[i] in lens && c[lens[i]] != 0;
    shortest := 1;
    while shortest < BMAX && c[shortest] == 0
      invariant 1 <= shortest <= used
      invariant forall l :: 1 <= l < shortest ==> c[l] == 0
    {
      shortest := shortest + 1;
    }
    longest := BMAX;
    while longest > 0 && c[longest] == 0
      invariant used <= longest <= BMAX
      invariant forall l :: longest < l <= BMAX ==> c[l] == 0
    {
      longest := longest - 1;
    }
  }

  /**
   Returns 0 when the tables are usable, 1 for an incomplete set (the tables are built all
   the same), 2 for an oversubscribed one. All-zero lengths give no table and 0.
   */
  method Build(lens: Lengths, m: Meaning, lookup: nat)
    returns (rc: nat, arena: Arena, bl: nat, ghost cx: Ctx, ghost infos: seq<Info>)
    requires 1 <= |lens| <= N_MAX && MeaningFor(m, |lens|)
    ensures rc <= 2
    ensures rc == 2 <==> Oversubscribed(lens)
    ensures rc == 0 <==> AllUnused(lens) || Complete(lens) || (OneBitCode(lens) && !Oversubscribed(lens))
    ensures AllUnused(lens) ==> arena == [] && bl == 0
    ensures cx.lens == lens && cx.m == m
    ensures rc < 2 && !AllUnused(lens) ==>
      && cx.l == bl
      && Built(cx, arena, infos) && WideExplained(cx, infos)
      && (NoWideSubtable(cx, infos) <==> !Overflows(cx))
      && (forall j :: IsShortest(lens, j) ==> bl == Clamp(lookup, j, cx.g))
  {
    hide Tables, Overflows, WideExplained, OverflowsFound, Oversubscribed, Complete, AllUnused, OneBitCode;
    hide IsShortest, IsLongest, SortedByLength, Building, Counts;
    arena, bl, infos := [], 0, [];
    cx := Ctx(lens, m, 0, 0);
    var c := CountLengths(lens);
    NullInput(lens, c);
    if c[0] == |lens| {
      return 0, arena, bl, cx, infos;
    }
    var shortest, g := Extremes(lens, c);
    bl := Clamp(lookup, shortest, g);
    var left := UnusedPatterns(lens, c, shortest, g);
    if left.None? {
      return 2, arena, bl, cx, infos;
    }
    var y := left.value;
    cx := Ctx(lens, m, g, bl);
    var v := SortSymbols(lens, c);
    StartBuilding(cx, c, lens, m, v, g, bl, y, shortest);
    arena, infos := FillTables(cx, c[g := c[g] + y], lens, m, v, shortest, g, bl);
    ReturnCode(lens, g, y);
    Finish(cx, arena, infos, shortest, lookup);
    rc := if y != 0 && g != 1 then 1 else 0;
  }

  lemma NullInput(lens: Lengths, c: seq<nat>)
    requires Counts(lens, c)
    ensures c[0] == |lens| <==> AllUnused(lens)
    ensures |c| == BMAX + 1
    ensures AllUnused(lens) ==> !Oversubscribed(lens)
    ensures !(Oversubscribed(lens) && Complete(lens))
  {
    if AllUnused(lens) {
      AllZero(lens);
    } else {
      OffTotal(lens);
      var s :| 0 <= s < |lens| && lens[s] != 0;
      CountZero(lens, lens[s]);
      OffMonotone(lens, lens[s], BMAX + 1);
    }
  }

  lemma {:induction false} AllZero(lens: Lengths)
    requires AllUnused(lens)
    ensures Count(lens, 0) == |lens| && Kraft(lens) == 0
  {
    if lens != [] {
      AllZero(lens[..|lens| - 1]);
    }
  }

  lemma StartBuilding(cx: Ctx, c: seq<nat>, lens: Lengths, m: Meaning, v: seq<nat>, g: nat, l: nat, y: nat,
                      shortest: nat)
    requires Counts(lens, c) && SortedByLength(lens, v) && |lens| <= N_MAX && MeaningFor(m, |lens|)
    requires cx == Ctx(lens, m, g, l) && 1 <= l <= g <= BMAX && IsLongest(lens, g) && !Oversubscribed(lens)
    requires PatternsLeft(lens, g, y) && 1 <= shortest <= g
    requires forall j :: 1 <= j < shortest || g < j <= BMAX ==> c[j] == 0
    ensures Building(cx, c[g := c[g] + y], lens, m, v, g, l)
    ensures forall j :: 1 <= j < shortest ==> Count(lens, j) == 0
    ensures Kraft(lens) + y * Pow2(BMAX - g) == Pow2(BMAX)
  {
    hide Pow2, Kraft, End, Count;
    KraftFromLeft(lens, g, y);
  }

  lemma ReturnCode(lens: Lengths, g: nat, y: nat)
    requires 1 <= g <= BMAX && IsLongest(lens, g)
    requires Kraft(lens) + y * Pow2(BMAX - g) == Pow2(BMAX)
    ensures y == 0 <==> Complete(lens)
    ensures g == 1 <==> OneBitCode(lens)
    ensures !Oversubscribed(lens) && !AllUnused(lens)
  {
    hide Kraft, Pow2;
    if y > 0 {
      MulScale(1, y, Pow2(BMAX - g));
    }
  }

  lemma Finish(cx: Ctx, arena: Arena, infos: seq<Info>, shortest: nat, lookup: nat)
    requires Tables(cx, arena, infos, Pow2(BMAX)) && |infos| > 0
    requires WideExplained(cx, infos) && OverflowsFound(cx, infos, Pow2(BMAX))
    requires IsShortest(cx.lens, shortest) && cx.l == Clamp(lookup, shortest, cx.g)
    ensures Built(cx, arena, infos) && (NoWideSubtable(cx, infos) <==> !Overflows(cx))
    ensures forall j :: IsShortest(cx.lens, j) ==> cx.l == Clamp(lookup, j, cx.g)
  {
    RootFull(cx, infos[0]);
    WideIffOverflow(cx, infos);
  }
}

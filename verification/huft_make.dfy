/**
 The loop `while (k > w + l)` of huft_build (boot/zBoot/inflate.c).
 */
module HuftMake {
  import opened Bits
  import opened Huffman
  import opened HuftTables
  import opened HuftProgress
  import opened HuftLayout
  import opened HuftPush

  /** A table made for the current code, of length `k` at position `p`. */
  ghost predicate NewTable(cx: Ctx, f: Info, k: nat, p: nat) {
    && 1 <= k <= BMAX && cx.l >= 1
    && |f.prefix| < k && |f.prefix| % cx.l == 0
    && Lo(BMAX, f.prefix) == p
    && (f.bits > cx.l <==> WideAt(cx, k, |f.prefix|, p))
  }

  ghost predicate Grown(cx: Ctx, infos0: seq<Info>, infos: seq<Info>, k: nat, p: nat) {
    && infos0 <= infos
    && forall t :: |infos0| <= t < |infos| ==> NewTable(cx, infos[t], k, p)
  }

  lemma GrownOne(cx: Ctx, infos0: seq<Info>, infos: seq<Info>, k: nat, p: nat, f: Info)
    requires Grown(cx, infos0, infos, k, p) && NewTable(cx, f, k, p)
    ensures Grown(cx, infos0, infos + [f], k, p)
  {
  }

  lemma NextMultipleOf(w: nat, l: nat)
    requires l >= 1 && w % l == 0
    ensures (w + l) % l == 0
  {
    MulDistributes(w / l, 1, l);
    DivModUnique(w + l, l, w / l + 1, 0);
  }

  lemma IndexOfLink(pi: seq<bool>, i: nat, w: nat)
    requires w <= |pi| && i == Lsb(pi)
    ensures i / Pow2(w) == Lsb(pi[w..])
  {
    LsbSplit(pi, w);
  }

  lemma NewTableIs(cx: Ctx, k: nat, p: nat, cur: seq<bool>, pi: seq<bool>, bits: nat, parent: nat)
    requires Sized(cx, k, p, pi, bits) && |pi| < k && cx.l >= 1 && |pi| % cx.l == 0
    requires |cur| == BMAX && Msb(cur) == p && ZerosAfter(cur, |pi|) && pi == cur[..|pi|]
    ensures NewTable(cx, Info(pi, bits, parent), k, p)
  {
    PrefixOfZeros(cur, |pi|);
  }

  /** The depth of the table on top is a multiple of l, and huft_build's w tracks it. */
  ghost predicate DepthIs(cx: Ctx, infos: seq<Info>, st: Stack, w: int) {
    && cx.l >= 1 && -1 <= st.h < |st.u|
    && (st.h == -1 ==> w + cx.l == 0)
    && (st.h >= 0 ==> st.u[st.h] < |infos| && w == |infos[st.u[st.h]].prefix| && w % cx.l == 0)
  }

  /** Everything the loop keeps, with `w` bits decoded before the table on top. */
  ghost predicate Making(cx: Ctx, arena: Arena, infos0: seq<Info>, infos: seq<Info>, st: Stack, i: nat, k: nat, p: nat,
                         cur: seq<bool>, w: int)
  {
    && AtCode(cx, arena, infos, st, i, k, p, cur)
    && DepthIs(cx, infos, st, w) && st.x[0] == 0
    && Grown(cx, infos0, infos, k, p)
  }

  lemma DepthOf(cx: Ctx, infos: seq<Info>, st: Stack, w: int)
    requires Chain(cx, infos, st) && DepthIs(cx, infos, st, w)
    ensures w == Depth(cx, infos, st)
    ensures st.h == -1 ==> infos == [] && w + cx.l == 0
  {
  }

  /** What the next level needs, before any table is made. */
  lemma NextLevel(cx: Ctx, arena: Arena, infos0: seq<Info>, infos: seq<Info>, st: Stack, i: nat, k: nat, p: nat,
                  cur: seq<bool>, w: int)
    requires Making(cx, arena, infos0, infos, st, i, k, p, cur, w) && k > w + cx.l
    ensures 0 <= w + cx.l < k <= BMAX == |cur| && Lo(BMAX, cur[..w + cx.l]) == p && ZerosAfter(cur, w + cx.l)
    ensures cx.l >= 1 && (w + cx.l) % cx.l == 0 && i == Lsb(cur[..w + cx.l])
    ensures st.h >= 0 ==> w >= 0
  {
    DepthOf(cx, infos, st, w);
    PrefixOfZeros(cur, w + cx.l);
    if st.h >= 0 {
      NextMultipleOf(w, cx.l);
    }
  }

  method MakeRoot(ghost cx: Ctx, j: nat, i: nat, arena0: Arena, st0: Stack,
                  ghost infos0: seq<Info>, ghost k: nat, ghost p: nat, ghost cur: seq<bool>)
    returns (arena: Arena, st: Stack, ghost infos: seq<Info>)
    requires Making(cx, arena0, infos0, infos0, st0, i, k, p, cur, 0 - cx.l) && st0.h == -1 && k > 0
    requires Sized(cx, k, p, [], j)
    ensures Making(cx, arena, infos0, infos, st, i, k, p, cur, 0) && st.h == 0 < |st.u| && st.u[0] == 0
  {
    NextLevel(cx, arena0, infos0, infos0, st0, i, k, p, cur, 0 - cx.l);
    DepthOf(cx, infos0, st0, 0 - cx.l);
    assert cur[..0] == [];
    NewTableIs(cx, k, p, cur, [], j, 0);
    PushRoot(cx, arena0, infos0, st0, i, k, p, cur, j);
    arena := [Fresh(Pow2(j))];
    st := Stack(st0.u[0 := 0], st0.x, 0);
    infos := [Info([], j, 0)];
  }

  /** Hanging the new table from the one on top keeps the loop's invariant. */
  lemma SubMade(cx: Ctx, j: nat, i: nat, w: nat, arena: Arena, st: Stack, infos0: seq<Info>, infos1: seq<Info>,
                k: nat, p: nat, cur: seq<bool>, ix: nat)
    returns (arena': Arena, infos: seq<Info>)
    requires Making(cx, arena, infos0, infos1, st, i, k, p, cur, w) && st.h >= 0 && k > w + cx.l
    requires w + cx.l <= |cur| && Sized(cx, k, p, cur[..w + cx.l], j) && ix == Lsb(cur[..w + cx.l][w..])
    ensures 0 <= st.h < BMAX - 1 && |st.u| == BMAX && |st.x| == BMAX + 1
    ensures st.u[st.h] < |arena| && ix < |arena[st.u[st.h]]|
    ensures arena' == PushArena(cx, arena, st.u[st.h], ix, j)
    ensures Making(cx, arena', infos0, infos, PushStack(st, |arena|, i), i, k, p, cur, w + cx.l)
  {
    hide Lsb, Pow2, Tables, Finished, Rung, Sized, Base, Msb, Lo, PushArena, NewTable;
    var pi := cur[..w + cx.l];
    SubSite(cx, j, i, w, arena, st, infos0, infos1, k, p, cur);
    arena', infos := PushSub(cx, arena, infos1, st, i, k, p, cur, st.u[st.h], w, pi, j, ix);
    SubDepth(cx, j, w, infos0, infos1, infos, st, i, k, p, pi);
  }

  lemma SubSite(cx: Ctx, j: nat, i: nat, w: nat, arena: Arena, st: Stack, infos0: seq<Info>, infos1: seq<Info>,
                k: nat, p: nat, cur: seq<bool>)
    requires Making(cx, arena, infos0, infos1, st, i, k, p, cur, w) && st.h >= 0 && k > w + cx.l
    requires w + cx.l <= |cur| && Sized(cx, k, p, cur[..w + cx.l], j)
    ensures st.h < BMAX && |infos1| == |arena| && st.u[st.h] < |infos1| && w == |infos1[st.u[st.h]].prefix|
    ensures cx.l >= 1 && (w + cx.l) % cx.l == 0
    ensures NewTable(cx, Info(cur[..w + cx.l], j, st.u[st.h]), k, p)
  {
    hide Lsb, Pow2, Finished, Rung, Sized, Base, Msb, Lo, DoneBefore, AllLinked, HolesUnset;
    NextLevel(cx, arena, infos0, infos1, st, i, k, p, cur, w);
    NewTableIs(cx, k, p, cur, cur[..w + cx.l], j, st.u[st.h]);
  }

  lemma SubDepth(cx: Ctx, j: nat, w: nat, infos0: seq<Info>, infos1: seq<Info>, infos: seq<Info>, st: Stack, i: nat,
                 k: nat, p: nat, pi: seq<bool>)
    requires 0 <= st.h < BMAX - 1 && |st.u| == BMAX && |st.x| == BMAX + 1
    requires infos == infos1 + [Info(pi, j, st.u[st.h])] && |pi| == w + cx.l && cx.l >= 1 && |pi| % cx.l == 0
    requires Grown(cx, infos0, infos1, k, p) && NewTable(cx, Info(pi, j, st.u[st.h]), k, p)
    ensures Grown(cx, infos0, infos, k, p) && DepthIs(cx, infos, PushStack(st, |infos1|, i), w + cx.l)
  {
    GrownOne(cx, infos0, infos1, k, p, Info(pi, j, st.u[st.h]));
  }

  method MakeSub(ghost cx: Ctx, j: nat, i: nat, l: nat, w: nat, arena0: Arena, st0: Stack,
                 ghost infos0: seq<Info>, ghost infos1: seq<Info>, ghost k: nat, ghost p: nat, ghost cur: seq<bool>)
    returns (arena: Arena, st: Stack, ghost infos: seq<Info>)
    requires Making(cx, arena0, infos0, infos1, st0, i, k, p, cur, w) && st0.h >= 0 && k > w + cx.l && l == cx.l
    requires w + l <= |cur| && Sized(cx, k, p, cur[..w + l], j)
    ensures Making(cx, arena, infos0, infos, st, i, k, p, cur, w + l) && 0 <= st.h < |st.u| && st.u[st.h] == |arena0|
  {
    hide Making, Sized, Lsb, Pow2;
    NextLevel(cx, arena0, infos0, infos1, st0, i, k, p, cur, w);
    IndexOfLink(cur[..w + l], i, w);
    ghost var arena';
    arena', infos := SubMade(cx, j, i, w, arena0, st0, infos0, infos1, k, p, cur, Lsb(cur[..w + l][w..]));
    var parent, ix := st0.u[st0.h], i / Pow2(w);
    arena := arena0[parent := arena0[parent][ix := Link(16 + j, l, |arena0|)]] + [Fresh(Pow2(j))];
    st := Stack(st0.u[st0.h + 1 := |arena0|], st0.x[st0.h + 1 := i], st0.h + 1);
  }

  /** Make and link the tables that the current code needs. */
  method MakeTables(ghost cx: Ctx, c: seq<nat>, k: nat, a: nat, g: nat, l: nat, i: nat,
                    arena0: Arena, st0: Stack, w0: int, q0: nat,
                    ghost infos0: seq<Info>, ghost r: nat, ghost p: nat, ghost cur: seq<bool>)
    returns (arena: Arena, st: Stack, w: nat, q: nat, ghost infos: seq<Info>)
    requires Making(cx, arena0, infos0, infos0, st0, i, k, p, cur, w0) && CodeAt(cx, c, k, r, a, p, cur)
    requires g == cx.g && l == cx.l
    requires k <= w0 + l ==> 0 <= st0.h < |st0.u| && q0 == st0.u[st0.h] && 0 <= w0 < k
    ensures Making(cx, arena, infos0, infos, st, i, k, p, cur, w)
    ensures w < k <= w + l && 0 <= st.h < |st.u| && q == st.u[st.h]
  {
    hide Making, CodeAt;
    arena, st, infos, q := arena0, st0, infos0, q0;
    var depth := w0;
    while k > depth + l
      invariant Making(cx, arena, infos0, infos, st, i, k, p, cur, depth)
      invariant st.h >= 0 || (depth == w0 && infos == infos0 && st == st0 && arena == arena0)
      invariant k <= depth + l ==> 0 <= st.h < |st.u| && q == st.u[st.h] && 0 <= depth < k
      decreases k - depth
    {
      NextLevel(cx, arena, infos0, infos, st, i, k, p, cur, depth);
      var j := SizeTable(cx, c, k, depth + l, a, g, l, r, p, cur);
      q := |arena|;
      if st.h >= 0 {
        arena, st, infos := MakeSub(cx, j, i, l, depth, arena, st, infos0, infos, k, p, cur);
      } else {
        NoTablesYet(cx, arena, infos0, infos, st, i, k, p, cur, depth);
        assert cur[..0] == [];
        arena, st, infos := MakeRoot(cx, j, i, arena, st, infos0, k, p, cur);
      }
      depth := depth + l;
    }
    w := depth;
  }

  lemma NoTablesYet(cx: Ctx, arena: Arena, infos0: seq<Info>, infos: seq<Info>, st: Stack, i: nat, k: nat, p: nat,
                    cur: seq<bool>, w: int)
    requires Making(cx, arena, infos0, infos, st, i, k, p, cur, w) && st.h < 0
    ensures w == 0 - cx.l && infos == infos0 == [] && arena == [] && st.h == -1
  {
    DepthOf(cx, infos, st, w);
  }
}

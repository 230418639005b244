/**
 Leaving finished tables (boot/zBoot/inflate.c, the last loop of huft_build), and
 keeping track of the tables that came out too wide.
 */
module HuftBackup {
  import opened Bits
  import opened Huffman
  import opened HuftTables
  import opened HuftProgress
  import opened HuftLayout
  import opened HuftPush
  import opened HuftMake

  ghost function Popped(st: Stack): Stack {
    Stack(st.u, st.x, st.h - 1)
  }

  lemma {:induction false} DepthsGrow(cx: Ctx, infos: seq<Info>, st: Stack, a: nat, b: nat)
    requires Chain(cx, infos, st) && a <= b <= st.h
    ensures |infos[st.u[a]].prefix| <= |infos[st.u[b]].prefix|
    decreases b
  {
    if a < b {
      assert Rung(cx, infos, st, b);
      DepthsGrow(cx, infos, st, a, b - 1);
    }
  }

  lemma PopChain(cx: Ctx, infos: seq<Info>, st: Stack)
    requires Chain(cx, infos, st) && st.h > 0
    ensures Chain(cx, infos, Popped(st))
    ensures infos[st.u[st.h - 1]].prefix <= infos[st.u[st.h]].prefix
    ensures |infos[st.u[st.h]].prefix| == |infos[st.u[st.h - 1]].prefix| + cx.l
  {
    hide Lsb, Pow2;
    assert Rung(cx, infos, st, st.h);
    forall a | 0 <= a <= st.h - 1
      ensures infos[st.u[a]].prefix <= infos[st.u[st.h - 1]].prefix
    {
      DepthsGrow(cx, infos, st, a, st.h - 1);
    }
    forall a
      ensures Rung(cx, infos, Popped(st), a)
    {
      assert Rung(cx, infos, st, a);
    }
  }

  lemma PopFinished(infos: seq<Info>, st: Stack, p: nat)
    requires Finished(infos, st, p) && 0 < st.h < |st.u| && st.u[st.h] < |infos|
    requires |infos[st.u[st.h]].prefix| <= BMAX && Hi(BMAX, infos[st.u[st.h]].prefix) <= p
    ensures Finished(infos, Popped(st), p)
  {
    forall t | 0 <= t < |infos| && !OnStack(Popped(st), t)
      ensures |infos[t].prefix| <= BMAX && Hi(BMAX, infos[t].prefix) <= p
    {
      if t != st.u[st.h] {
        forall a | 0 <= a <= st.h
          ensures st.u[a] != t
        {
          assert a < st.h ==> Popped(st).u[a] == st.u[a];
        }
        assert !OnStack(st, t);
      }
    }
  }

  /** Just past code `cs`: the position, and its bit string unless that was the last code. */
  ghost predicate PastCode(cs: seq<bool>, p: nat, cur: seq<bool>) {
    && |cs| <= BMAX && p == Hi(BMAX, cs) && |cur| == BMAX
    && (p < Pow2(BMAX) ==> Msb(cur) == p)
  }

  /** A prefix of the last code that the new position has left behind ends exactly there. */
  lemma LeftBehind(pi: seq<bool>, cs: seq<bool>, p: nat, cur: seq<bool>)
    requires PastCode(cs, p, cur) && pi <= cs
    requires p < Pow2(BMAX) ==> cur[..|pi|] != pi
    ensures Hi(BMAX, pi) == p
    ensures p < Pow2(BMAX) ==> ZerosAfter(cur, |pi|)
  {
    PrefixIffInside(BMAX, pi, cs);
    HiBound(BMAX, pi);
    if p < Pow2(BMAX) {
      assert Lo(BMAX, cur) == p;
      PrefixIffInside(BMAX, pi, cur);
      EndsAligned(pi, cur);
    }
  }

  lemma EndsAligned(pi: seq<bool>, cur: seq<bool>)
    requires |pi| <= BMAX == |cur| && Hi(BMAX, pi) == Msb(cur) < Pow2(BMAX)
    ensures ZerosAfter(cur, |pi|)
  {
    hide Msb, Pow2, ZerosAfter;
    var c := Msb(pi) + 1;
    MulDistributes(Msb(pi), 1, Pow2(BMAX - |pi|));
    MultipleIsAligned(c, |pi|, cur);
  }

  lemma MultipleIsAligned(c: nat, n: nat, cur: seq<bool>)
    requires n <= BMAX == |cur| && c * Pow2(BMAX - n) == Msb(cur) < Pow2(BMAX)
    ensures ZerosAfter(cur, n)
  {
    hide Msb, Pow2;
    PositionBound(c, n);
    AlignedBits(BMAX, n, c);
    BitsOfMsb(cur);
    assert cur[..n] == MsbBits(c, n);
  }

  ghost predicate Leaving(cx: Ctx, infos: seq<Info>, st: Stack, w: int, cs: seq<bool>, p: nat) {
    && Chain(cx, infos, st) && DepthIs(cx, infos, st, w) && st.h >= 0
    && infos[st.u[st.h]].prefix <= cs
    && Finished(infos, st, p)
  }

  lemma LeaveOne(cx: Ctx, infos: seq<Info>, st: Stack, w: int, cs: seq<bool>, p: nat, cur: seq<bool>)
    requires Leaving(cx, infos, st, w, cs, p) && PastCode(cs, p, cur) && w > 0
    requires w <= |cur| && p < Pow2(BMAX) ==> cur[..w] != infos[st.u[st.h]].prefix
    requires |infos| > 0 && infos[0].prefix == []
    ensures st.h > 0 && w >= cx.l && Leaving(cx, infos, Popped(st), w - cx.l, cs, p)
    ensures p < Pow2(BMAX) ==> ZerosAfter(cur, w)
  {
    assert |cs| <= BMAX;
    hide PastCode, Hi, ZerosAfter, Pow2, Lsb;
    LeftBehind(infos[st.u[st.h]].prefix, cs, p, cur);
    TopAboveRoot(cx, infos, st, w);
    LeaveTop(cx, infos, st, w, cs, p);
  }

  lemma LeaveTop(cx: Ctx, infos: seq<Info>, st: Stack, w: int, cs: seq<bool>, p: nat)
    requires Leaving(cx, infos, st, w, cs, p) && st.h > 0 && w > 0
    requires |infos[st.u[st.h]].prefix| <= BMAX && Hi(BMAX, infos[st.u[st.h]].prefix) <= p
    ensures w >= cx.l && Leaving(cx, infos, Popped(st), w - cx.l, cs, p)
  {
    hide Hi, Lsb;
    PopChain(cx, infos, st);
    PopFinished(infos, st, p);
    ShorterMultiple(w, cx.l);
  }

  lemma TopAboveRoot(cx: Ctx, infos: seq<Info>, st: Stack, w: int)
    requires Chain(cx, infos, st) && DepthIs(cx, infos, st, w) && st.h >= 0 && w > 0
    requires |infos| > 0 && infos[0].prefix == []
    ensures st.h > 0
  {
  }

  lemma ShorterMultiple(w: nat, l: nat)
    requires l >= 1 && w % l == 0 && w > 0
    ensures w >= l && (w - l) % l == 0
  {
    MultipleAtLeast(w, l);
    MulDistributes(w / l - 1, 1, l);
    DivModUnique(w - l, l, w / l - 1, 0);
  }

  /** Pops tables until the prefix of the one on top matches the next code. */
  method BackUp(ghost cx: Ctx, i: nat, l: nat, st0: Stack, w0: nat,
                ghost infos: seq<Info>, ghost cs: seq<bool>, ghost p: nat, ghost cur: seq<bool>)
    returns (st: Stack, w: nat)
    requires Leaving(cx, infos, st0, w0, cs, p) && PastCode(cs, p, cur) && l == cx.l
    requires |infos| > 0 && infos[0].prefix == [] && i == Lsb(cur)
    ensures Leaving(cx, infos, st, w, cs, p) && st.u == st0.u && st.x == st0.x
    ensures p < Pow2(BMAX) ==> infos[st.u[st.h]].prefix <= cur
    ensures w <= w0 && (w == w0 ==> st == st0)
    ensures p < Pow2(BMAX) && w < w0 ==> w + l <= w0 && ZerosAfter(cur, w + l)
  {
    hide Leaving, PastCode, Pow2, ZerosAfter, Lsb;
    st, w := st0, w0;
    TopPattern(cx, infos, st, w, cs, p, cur, i);
    while i % Pow2(w) != st.x[st.h]
      invariant Leaving(cx, infos, st, w, cs, p) && st.u == st0.u && st.x == st0.x
      invariant 0 <= st.h < |st.x| && st.h < |st.u| && st.u[st.h] < |infos|
      invariant 0 <= w <= w0 && (w == w0 ==> st == st0)
      invariant p < Pow2(BMAX) && w < w0 ==> w + l <= w0 && ZerosAfter(cur, w + l)
      invariant w <= |cur| && (i % Pow2(w) == st.x[st.h] <==> cur[..w] == infos[st.u[st.h]].prefix)
      invariant w == 0 ==> i % Pow2(w) == st.x[st.h]
      decreases w
    {
      LeaveOne(cx, infos, st, w, cs, p, cur);
      st := Stack(st.u, st.x, st.h - 1);
      w := w - l;
      TopPattern(cx, infos, st, w, cs, p, cur, i);
    }
  }

  /** Comparing the low bits of i with x[h] compares the position with the table's prefix. */
  lemma TopPattern(cx: Ctx, infos: seq<Info>, st: Stack, w: int, cs: seq<bool>, p: nat, cur: seq<bool>, i: nat)
    requires Leaving(cx, infos, st, w, cs, p) && PastCode(cs, p, cur) && i == Lsb(cur)
    ensures cx.l >= 1 && 0 <= w <= |cur| && 0 <= st.h < |st.x| && st.h < |st.u| && st.u[st.h] < |infos|
    ensures i % Pow2(w) == st.x[st.h] <==> cur[..w] == infos[st.u[st.h]].prefix
    ensures w == 0 ==> cur[..w] == infos[st.u[st.h]].prefix
  {
    var pi := infos[st.u[st.h]].prefix;
    LsbSplit(cur, w);
    if Lsb(cur[..w]) == Lsb(pi) {
      LsbInjective(cur[..w], pi);
    }
  }
}

/**
 Which subtables come out wider than their links can fill: exactly those that the
 code overflows (see HuftLayout.OverflowsAt).
 */
module HuftWide {
  import opened Bits
  import opened Huffman
  import opened HuftTables
  import opened HuftProgress
  import opened HuftLayout
  import opened HuftPush
  import opened HuftMake
  import opened HuftBackup

  ghost predicate IsWide(cx: Ctx, infos: seq<Info>, t: nat) {
    0 < t < |infos| && infos[t].bits > cx.l
  }

  /** Codes no longer than w + l end before a wide subtable does: part of it is reached by links only. */
  ghost predicate WideGap(cx: Ctx, f: Info) {
    && 1 <= |f.prefix| + cx.l < cx.g <= BMAX
    && End(cx.lens, |f.prefix| + cx.l) < Hi(BMAX, f.prefix)
  }

  /** All tables made so far began before position `p`, at a depth that is a multiple of l. */
  ghost predicate Older(cx: Ctx, infos: seq<Info>, p: nat) {
    forall t :: 0 <= t < |infos| ==> |infos[t].prefix| <= BMAX && Lo(BMAX, infos[t].prefix) < p
  }

  ghost predicate WideExplained(cx: Ctx, infos: seq<Info>) {
    forall t: nat :: IsWide(cx, infos, t) ==> Overflows(cx) && WideGap(cx, infos[t])
  }

  ghost predicate OverflowsBefore(cx: Ctx, p: nat) {
    exists k: nat, w: nat, x: nat :: OverflowsAt(cx, k, w, x) && x < p
  }

  ghost predicate OverflowsFound(cx: Ctx, infos: seq<Info>, p: nat) {
    OverflowsBefore(cx, p) ==> exists t: nat :: IsWide(cx, infos, t)
  }

  /** The current code, the r-th of length `k`, lies between positions p and p'. */
  ghost predicate CodeSpan(cx: Ctx, k: nat, p: nat, p': nat) {
    && 1 <= cx.l && 1 <= k <= cx.g <= BMAX
    && p % Pow2(BMAX - k) == 0 && p' == p + Pow2(BMAX - k)
    && Base(cx.lens, k) <= p && p' <= Limit(cx, k)
  }

  lemma NewWide(cx: Ctx, f: Info, k: nat, p: nat, p': nat)
    requires CodeSpan(cx, k, p, p') && NewTable(cx, f, k, p) && |f.prefix| >= 1 && f.bits > cx.l
    requires Limit(cx, k) <= Pow2(BMAX)
    ensures OverflowsAt(cx, k, |f.prefix|, p) && WideGap(cx, f)
  {
    hide Pow2, Msb, NextCode, Count;
    var w := |f.prefix|;
    MultipleOf(Msb(f.prefix), Pow2(BMAX - w));
    HiBound(BMAX, f.prefix);
    if k > w + cx.l {
      BaseMonotone(cx.lens, w + cx.l, k);
    }
  }

  lemma WideExplainedStep(cx: Ctx, infos0: seq<Info>, infos: seq<Info>, k: nat, p: nat, p': nat)
    requires WideExplained(cx, infos0) && Grown(cx, infos0, infos, k, p)
    requires CodeSpan(cx, k, p, p') && Limit(cx, k) <= Pow2(BMAX)
    requires forall t :: 0 < t < |infos| ==> |infos[t].prefix| >= 1
    ensures WideExplained(cx, infos)
  {
    forall t: nat | IsWide(cx, infos, t)
      ensures Overflows(cx) && WideGap(cx, infos[t])
    {
      if t < |infos0| {
        assert IsWide(cx, infos0, t);
      } else {
        NewWide(cx, infos[t], k, p, p');
        assert OverflowsAt(cx, k, |infos[t].prefix|, p);
      }
    }
  }

  /** An overflow that begins inside the current code begins with it. */
  lemma OverflowHere(cx: Ctx, k: nat, p: nat, p': nat, k': nat, w: nat, x: nat)
    requires CodeSpan(cx, k, p, p') && OverflowsAt(cx, k', w, x) && p <= x < p'
    ensures k' == k && x == p
  {
    if k < k' {
      BaseMonotone(cx.lens, k, k');
    } else if k' < k {
      BaseMonotone(cx.lens, k', k);
    }
    CoarserMultiple(x, k', w);
    if p < x {
      MultipleBelow(p, x, Pow2(BMAX - k));
    }
  }

  lemma MultipleOfProduct(x: nat, a: nat, b: nat)
    requires a > 0 && b > 0 && a * b > 0 && x % (a * b) == 0
    ensures x % b == 0
  {
    var q := x / (a * b);
    MulAssoc(q, a, b);
    MultipleOf(q * a, b);
  }

  lemma CoarserMultiple(x: nat, k: nat, w: nat)
    requires w <= k <= BMAX && x % Pow2(BMAX - w) == 0
    ensures x % Pow2(BMAX - k) == 0
  {
    Pow2Add(k - w, BMAX - k);
    assert k - w + (BMAX - k) == BMAX - w;
    hide Pow2;
    MultipleOfProduct(x, Pow2(k - w), Pow2(BMAX - k));
  }

  /** There is a table on the stack at every depth that is a multiple of l. */
  lemma {:induction false} StackHasDepth(cx: Ctx, infos: seq<Info>, st: Stack, w: nat, b: nat) returns (a: nat)
    requires Chain(cx, infos, st) && b <= st.h && cx.l >= 1
    requires w <= |infos[st.u[b]].prefix| && w % cx.l == 0 && |infos[st.u[b]].prefix| % cx.l == 0
    requires infos[0].prefix == []
    ensures a <= st.h && |infos[st.u[a]].prefix| == w
    decreases b
  {
    var d := |infos[st.u[b]].prefix|;
    if w == d {
      a := b;
    } else {
      assert b > 0;
      assert Rung(cx, infos, st, b);
      ShorterMultiple(d, cx.l);
      MultipleBelow(w, d, cx.l);
      a := StackHasDepth(cx, infos, st, w, b - 1);
    }
  }

  /** If the current position starts an overflow, the table made for it is wide. */
  lemma OverflowMakesWide(cx: Ctx, infos0: seq<Info>, infos: seq<Info>, st: Stack, k: nat, p: nat, p': nat,
                          cur: seq<bool>, w: nat)
    requires Chain(cx, infos, st) && st.h >= 0 && infos[0].prefix == []
    requires Older(cx, infos0, p) && Grown(cx, infos0, infos, k, p)
    requires CodeSpan(cx, k, p, p') && OverflowsAt(cx, k, w, p)
    requires DepthIs(cx, infos, st, |infos[st.u[st.h]].prefix|) && k <= |infos[st.u[st.h]].prefix| + cx.l
    requires |cur| == BMAX && Msb(cur) == p && infos[st.u[st.h]].prefix <= cur
    ensures exists t: nat :: IsWide(cx, infos, t)
  {
    var a := StackHasDepth(cx, infos, st, w, st.h);
    var t := st.u[a];
    var pi := infos[t].prefix;
    PrefixTrans(pi, infos[st.u[st.h]].prefix, cur);
    StartsHere(pi, cur);
    assert t >= |infos0|;
    assert NewTable(cx, infos[t], k, p);
    assert t > 0;
    assert IsWide(cx, infos, t);
  }

  lemma StartsHere(pi: seq<bool>, cur: seq<bool>)
    requires |cur| == BMAX && pi <= cur && Msb(cur) % Pow2(BMAX - |pi|) == 0
    ensures Lo(BMAX, pi) == Msb(cur)
  {
    assert Lo(BMAX, cur) == Msb(cur);
    PrefixIffInside(BMAX, pi, cur);
    MultipleOf(Msb(pi), Pow2(BMAX - |pi|));
    if Lo(BMAX, pi) < Msb(cur) {
      MultipleBelow(Lo(BMAX, pi), Msb(cur), Pow2(BMAX - |pi|));
    }
  }

  lemma OverflowsFoundStep(cx: Ctx, infos0: seq<Info>, infos: seq<Info>, st: Stack, k: nat, p: nat, p': nat,
                           cur: seq<bool>)
    requires OverflowsFound(cx, infos0, p)
    requires Chain(cx, infos, st) && st.h >= 0 && infos[0].prefix == []
    requires Older(cx, infos0, p) && Grown(cx, infos0, infos, k, p)
    requires CodeSpan(cx, k, p, p')
    requires DepthIs(cx, infos, st, |infos[st.u[st.h]].prefix|) && k <= |infos[st.u[st.h]].prefix| + cx.l
    requires |cur| == BMAX && Msb(cur) == p && infos[st.u[st.h]].prefix <= cur
    ensures OverflowsFound(cx, infos, p')
  {
    if OverflowsBefore(cx, p) {
      var t: nat :| IsWide(cx, infos0, t);
      assert IsWide(cx, infos, t);
    } else if OverflowsBefore(cx, p') {
      var k': nat, w: nat, x: nat :| OverflowsAt(cx, k', w, x) && x < p';
      OverflowHere(cx, k, p, p', k', w, x);
      OverflowMakesWide(cx, infos0, infos, st, k, p, p', cur, w);
    }
  }

  lemma OlderStep(cx: Ctx, infos0: seq<Info>, infos: seq<Info>, k: nat, p: nat, p': nat)
    requires Older(cx, infos0, p) && Grown(cx, infos0, infos, k, p) && p < p'
    ensures Older(cx, infos, p')
  {
  }
}

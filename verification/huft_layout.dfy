/**
 Arithmetic of the table loop: where the codes of each length lie once the dummy
 codes of an incomplete set are added, how large a new table gets, and exactly
 which codes make huft_build allocate a subtable that its links cannot fill.
 */
module HuftLayout {
  import opened Bits
  import opened Huffman
  import opened HuftTables
  import opened HuftProgress
  import opened HuftSort

  /** The counts after c[g] was raised by the number of unused patterns. */
  ghost predicate Filling(cx: Ctx, c: seq<nat>) {
    && CtxOK(cx) && |c| == BMAX + 1
    && (forall k :: 1 <= k < cx.g ==> c[k] == Count(cx.lens, k))
    && c[cx.g] >= Count(cx.lens, cx.g)
    && NextCode(cx.lens, cx.g) + c[cx.g] == Pow2(cx.g)
    && Kraft(cx.lens) == End(cx.lens, cx.g)
  }

  /** Position of the r-th code of length k. */
  ghost function At(lens: Lengths, k: nat, r: nat): nat
    requires 1 <= k <= BMAX
  {
    (NextCode(lens, k) + r) * Pow2(BMAX - k)
  }

  /** Where the codes of length `k` end, dummies included. */
  ghost function Limit(cx: Ctx, k: nat): nat
    requires 1 <= k <= BMAX
  {
    if k < cx.g then End(cx.lens, k) else Pow2(BMAX)
  }

  lemma LimitIs(cx: Ctx, c: seq<nat>, k: nat)
    requires Filling(cx, c) && 1 <= k <= cx.g
    ensures At(cx.lens, k, c[k]) == Limit(cx, k)
    ensures k < cx.g ==> Limit(cx, k) == Base(cx.lens, k + 1)
  {
    hide Pow2, NextCode, Count, Kraft;
    if k < cx.g {
      MulDistributes(NextCode(cx.lens, k), c[k], Pow2(BMAX - k));
      BaseStep(cx.lens, k);
    } else {
      Pow2Add(k, BMAX - k);
    }
  }

  lemma LimitBound(cx: Ctx, k: nat)
    requires CtxOK(cx) && 1 <= k <= cx.g
    ensures Limit(cx, k) <= Pow2(BMAX)
  {
    if k < cx.g {
      KraftIsEnd(cx.lens);
      BaseMonotone(cx.lens, k, BMAX);
    }
  }

  lemma AtStep(lens: Lengths, k: nat, r: nat, n: nat)
    requires 1 <= k <= BMAX
    ensures At(lens, k, r + n) == At(lens, k, r) + n * Pow2(BMAX - k)
  {
    MulDistributes(NextCode(lens, k) + r, n, Pow2(BMAX - k));
  }

  lemma BaseOrder(lens: Lengths, j: nat, k: nat)
    requires 1 <= j <= k <= BMAX
    ensures Base(lens, j) <= Base(lens, k)
  {
    if j < k {
      BaseMonotone(lens, j, k);
    }
  }

  lemma ScaledStep(n: nat, r: nat, c: nat, d: nat)
    requires r < c
    ensures (n + r) * d + d == (n + (r + 1)) * d <= (n + c) * d
  {
    MulDistributes(n + r, 1, d);
    MulScale(n + r + 1, n + c, d);
  }

  lemma ScaledLess(x: nat, y: nat, d: nat)
    requires x * d < y * d
    ensures x < y
  {
    if y <= x {
      MulScale(y, x, d);
    }
  }

  /** The r-th code of length k is there to be handed out. */
  lemma CodeFits(cx: Ctx, c: seq<nat>, k: nat, r: nat)
    requires Filling(cx, c) && 1 <= k <= cx.g && r < c[k]
    ensures NextCode(cx.lens, k) + r < Pow2(k)
    ensures At(cx.lens, k, r) + Pow2(BMAX - k) == At(cx.lens, k, r + 1) <= Limit(cx, k) <= Pow2(BMAX)
  {
    hide Pow2, NextCode, Count, Kraft;
    LimitIs(cx, c, k);
    LimitBound(cx, k);
    ScaledStep(NextCode(cx.lens, k), r, c[k], Pow2(BMAX - k));
    PositionBound(NextCode(cx.lens, k) + r, k);
  }

  lemma PositionBound(x: nat, k: nat)
    requires k <= BMAX && x * Pow2(BMAX - k) < Pow2(BMAX)
    ensures x < Pow2(k)
  {
    Pow2Add(k, BMAX - k);
    ScaledLess(x, Pow2(k), Pow2(BMAX - k));
  }

  // ------------------------------------------------------------------
  // Wide subtables

  /**
   A subtable at depth `w` starts at position `x` with a code of length `k`, and no table
   of `l` index bits holds it: either the code is longer than w + l, or the codes of that
   length do not fill the table.
   */
  ghost predicate OverflowsAt(cx: Ctx, k: nat, w: nat, x: nat) {
    && cx.l >= 1 && 1 <= w && w % cx.l == 0 && w + cx.l <= k <= cx.g <= BMAX
    && x % Pow2(BMAX - w) == 0
    && Base(cx.lens, k) <= x < Limit(cx, k)
    && (k > w + cx.l || Limit(cx, k) < x + Pow2(BMAX - w))
  }

  ghost predicate Overflows(cx: Ctx) {
    exists k, w, x :: OverflowsAt(cx, k, w, x)
  }

  lemma MultipleBelow(x: nat, y: nat, d: nat)
    requires d > 0 && x % d == 0 && y % d == 0 && x < y
    ensures x + d <= y
  {
    ScaledLess(x / d, y / d, d);
    MulScale(x / d + 1, y / d, d);
    MulDistributes(x / d, 1, d);
  }

  lemma MultipleOf(c: nat, d: nat)
    requires d > 0
    ensures (c * d) % d == 0
  {
    DivModUnique(c * d, d, c, 0);
  }

  lemma WholeIsMultiple(w: nat)
    requires w <= BMAX
    ensures Pow2(BMAX) % Pow2(BMAX - w) == 0
  {
    Pow2Add(w, BMAX - w);
    MultipleOf(Pow2(w), Pow2(BMAX - w));
  }

  /** A table index of at least half the longest code leaves no room for an overflow. */
  lemma BigTablesDoNotOverflow(cx: Ctx)
    requires CtxOK(cx) && 2 * cx.l >= cx.g
    ensures !Overflows(cx)
  {
    forall k, w, x
      ensures !OverflowsAt(cx, k, w, x)
    {
      if OverflowsAt(cx, k, w, x) {
        MultipleAtLeast(w, cx.l);
        WholeIsMultiple(w);
        MultipleBelow(x, Pow2(BMAX), Pow2(BMAX - w));
      }
    }
  }

  lemma MultipleAtLeast(w: nat, l: nat)
    requires l >= 1 && w >= 1 && w % l == 0
    ensures w >= l
  {
    if w < l {
      DivModUnique(w, l, 0, w);
    }
  }

  /** Codes of length k and more take up at most 2^(BMAX-k) positions each. */
  lemma {:induction false} LongCodes(lens: Lengths, k: nat, j: nat)
    requires 1 <= k <= j <= BMAX
    ensures Off(lens, j + 1) >= Off(lens, k)
    ensures End(lens, j) <= Base(lens, k) + (Off(lens, j + 1) - Off(lens, k)) * Pow2(BMAX - k)
    decreases j
  {
    var d := Pow2(BMAX - k);
    Pow2Monotone(BMAX - j, BMAX - k);
    MulMonotone(Count(lens, j), Pow2(BMAX - j), d);
    if k < j {
      LongCodes(lens, k, j - 1);
      BaseStep(lens, j - 1);
      MulDistributes(Off(lens, j) - Off(lens, k), Count(lens, j), d);
    }
  }

  /** A complete code with fewer than 2^l symbols has no overflow: the subtable would need 2^l codes. */
  lemma FewSymbolsDoNotOverflow(cx: Ctx)
    requires CtxOK(cx) && Complete(cx.lens) && |cx.lens| < Pow2(cx.l)
    ensures !Overflows(cx)
  {
    hide Pow2, NextCode, Count, Kraft, Base, Off, Limit;
    forall k, w, x
      ensures !OverflowsAt(cx, k, w, x)
    {
      if OverflowsAt(cx, k, w, x) {
        OverflowNeedsCodes(cx, k, w, x);
        CodesFrom(cx, k);
        OffTotal(cx.lens);
        NeedsManyCodes(Off(cx.lens, BMAX + 1) - Off(cx.lens, k), k, w, cx.l);
      }
    }
  }

  lemma OverflowNeedsCodes(cx: Ctx, k: nat, w: nat, x: nat)
    requires CtxOK(cx) && OverflowsAt(cx, k, w, x)
    ensures Base(cx.lens, k) + Pow2(BMAX - w) <= Pow2(BMAX)
  {
    hide Pow2, NextCode, Count, Kraft, Base;
    LimitBound(cx, k);
    WholeIsMultiple(w);
    MultipleBelow(x, Pow2(BMAX), Pow2(BMAX - w));
  }

  lemma CodesFrom(cx: Ctx, k: nat)
    requires CtxOK(cx) && Complete(cx.lens) && 1 <= k <= BMAX
    ensures Off(cx.lens, BMAX + 1) >= Off(cx.lens, k)
    ensures Pow2(BMAX) <= Base(cx.lens, k) + (Off(cx.lens, BMAX + 1) - Off(cx.lens, k)) * Pow2(BMAX - k)
  {
    hide Pow2, NextCode, Count, Off;
    KraftIsEnd(cx.lens);
    LongCodes(cx.lens, k, BMAX);
  }

  lemma NeedsManyCodes(n: nat, k: nat, w: nat, l: nat)
    requires w + l <= k <= BMAX && n < Pow2(l)
    ensures n * Pow2(BMAX - k) < Pow2(BMAX - w)
  {
    Pow2Add(l, BMAX - k);
    MulScale(n + 1, Pow2(l), Pow2(BMAX - k));
    MulDistributes(n, 1, Pow2(BMAX - k));
    Pow2Monotone(l + (BMAX - k), BMAX - w);
  }
}

/**
 huft_build as written is not right for every complete code: a subtable that is too
 wide has slots no link reaches. For complete codes this is exactly the failure.
 */
module HuftFail {
  import opened Bits
  import opened Huffman
  import opened HuftTables
  import opened HuftProgress
  import opened HuftLayout
  import opened HuftWide
  import opened HuftDecode

  function Ones(n: nat): (s: seq<bool>)
    ensures |s| == n
  {
    seq(n, _ => true)
  }

  lemma {:induction false} OnesValue(n: nat)
    ensures Lsb(Ones(n)) == Pow2(n) - 1 && Msb(Ones(n)) == Pow2(n) - 1
  {
    if n > 0 {
      OnesValue(n - 1);
      assert Ones(n)[1..] == Ones(n - 1) && Ones(n)[..n - 1] == Ones(n - 1);
    }
  }

  /** The last 2^l-th of a table's interval starts no earlier than any boundary inside the interval. */
  lemma LastPart(pi: seq<bool>, l: nat, n: nat)
    requires |pi| + l <= BMAX && n * Pow2(BMAX - |pi| - l) < Hi(BMAX, pi)
    ensures n * Pow2(BMAX - |pi| - l) <= Lo(BMAX, pi + Ones(l))
  {
    hide Msb, Lsb, Pow2, Ones;
    var d := Pow2(BMAX - |pi| - l);
    OnesValue(l);
    MsbAppend(pi, Ones(l));
    Pow2Add(l, BMAX - |pi| - l);
    LastPartArithmetic(Msb(pi), Pow2(l), d, n);
    assert Msb(pi + Ones(l)) == Msb(pi) * Pow2(l) + (Pow2(l) - 1);
    MulAssoc(Msb(pi), Pow2(l), d);
  }

  lemma LastPartArithmetic(m: nat, q: nat, d: nat, n: nat)
    requires q >= 1 && d >= 1 && n * d < m * (q * d) + q * d
    ensures n * d <= (m * q + (q - 1)) * d
  {
    MulAssoc(m, q, d);
    MulDistributes(m * q, q, d);
    ScaledLess(n, m * q + q, d);
    MulScale(n, m * q + (q - 1), d);
  }

  lemma CodeEndsBy(lens: Lengths, sym: nat, n: nat)
    requires Used(lens, sym) && lens[sym] <= n <= BMAX
    ensures SymHi(lens, sym) <= End(lens, n)
  {
    hide End, SymHi;
    SymWithin(lens, sym);
    EndOrder(lens, lens[sym], n);
  }

  lemma EndOrder(lens: Lengths, j: nat, k: nat)
    requires 1 <= j <= k <= BMAX
    ensures End(lens, j) <= End(lens, k)
  {
    if j < k {
      BaseMonotone(lens, j, k);
    }
  }

  lemma GapStart(cx: Ctx, f: Info)
    requires WideGap(cx, f)
    ensures End(cx.lens, |f.prefix| + cx.l) <= Lo(BMAX, f.prefix + Ones(cx.l))
  {
    var n := |f.prefix| + cx.l;
    EndIsMultiple(cx.lens, n);
    hide End;
    LastPart(f.prefix, cx.l, NextCode(cx.lens, n) + Count(cx.lens, n));
  }

  /** No code of at most w + l bits reaches the end of a wide subtable. */
  lemma NoLeafAtEnd(cx: Ctx, f: Info, s: seq<bool>, h: Huft, sym: nat)
    requires CtxOK(cx) && WideGap(cx, f) && |f.prefix| + cx.l <= |s| <= BMAX
    requires f.prefix + Ones(cx.l) <= s
    ensures !LeafFor(cx, |f.prefix|, s, h, sym)
  {
    hide Lsb, Msb, Pow2, NextCode, Count, Kraft;
    var front := f.prefix + Ones(cx.l);
    if LeafFor(cx, |f.prefix|, s, h, sym) {
      assert Code(cx.lens, sym) <= front;
      hide LeafFor, Code, End, Lo, Hi, SymHi;
      CodeEndsBy(cx.lens, sym, |f.prefix| + cx.l);
      GapStart(cx, f);
      CodeInterval(cx.lens, sym);
      PrefixIffInside(BMAX, Code(cx.lens, sym), front);
    }
  }

  lemma EndIsMultiple(lens: Lengths, k: nat)
    requires 1 <= k <= BMAX
    ensures End(lens, k) == (NextCode(lens, k) + Count(lens, k)) * Pow2(BMAX - k)
  {
    hide NextCode, Count, Pow2;
    MulDistributes(NextCode(lens, k), Count(lens, k), Pow2(BMAX - k));
  }

  /** The last slot of a wide subtable was never written. */
  lemma HoleInWide(cx: Ctx, arena: Arena, infos: seq<Info>, t: nat)
    requires Built(cx, arena, infos) && IsWide(cx, infos, t) && WideGap(cx, infos[t]) && Complete(cx.lens)
    ensures Lsb(Ones(infos[t].bits)) < |arena[t]| && arena[t][Lsb(Ones(infos[t].bits))] == Unset
  {
    hide Lsb, LeafFor, Pow2;
    var f := infos[t];
    var idx := Lsb(Ones(f.bits));
    OnesValue(f.bits);
    Pow2Monotone(cx.l, f.bits);
    BitsOfLsb(Ones(f.bits));
    var s := Slot(f, idx);
    SlotBelow(f, idx);
    assert SlotDone(cx, arena, infos, t, idx);
    assert MissingLink(cx, arena, infos, t, idx);
    assert s[..|f.prefix| + cx.l] == f.prefix + Ones(cx.l);
    forall sym
      ensures !LeafFor(cx, |f.prefix|, s, arena[t][idx], sym)
    {
      NoLeafAtEnd(cx, f, s, arena[t][idx], sym);
    }
  }

  /** A hole found from a linked table is found from the root too. */
  lemma {:induction false} HoleFromRoot(cx: Ctx, arena: Arena, infos: seq<Info>, t: nat, rest: seq<bool>)
    requires Built(cx, arena, infos) && t < |infos|
    requires forall t' :: 0 < t' < t ==> infos[t'].bits <= cx.l
    requires Walk(arena, t, IndexBits(cx, infos, t), rest).Hole?
    ensures Walk(arena, 0, cx.l, infos[t].prefix + rest).Hole?
    decreases t
  {
    if t == 0 {
      assert infos[0].prefix + rest == rest;
    } else {
      assert Linked(cx, arena, infos, t);
      var f, parent := infos[t], infos[t].parent;
      var w := |f.prefix| - cx.l;
      var rest' := f.prefix[w..] + rest;
      assert rest'[..cx.l] == f.prefix[w..] && rest'[cx.l..] == rest;
      assert infos[parent].prefix + rest' == f.prefix + rest;
      assert IndexBits(cx, infos, parent) == cx.l;
      HoleFromRoot(cx, arena, infos, parent, rest');
    }
  }

  /**
   For a complete code the tables decode every bit string exactly when no subtable
   overflows; otherwise some code's bits lead to a slot that was never written.
   */
  lemma TablesDecodeIff(cx: Ctx, arena: Arena, infos: seq<Info>)
    requires Built(cx, arena, infos) && WideExplained(cx, infos) && Complete(cx.lens)
    requires NoWideSubtable(cx, infos) <==> !Overflows(cx)
    ensures !Overflows(cx) <==>
      forall bits: seq<bool> :: |bits| >= BMAX ==> Agrees(cx, bits, 0, Walk(arena, 0, cx.l, bits))
  {
    if !Overflows(cx) {
      forall bits: seq<bool> | |bits| >= BMAX
        ensures Agrees(cx, bits, 0, Walk(arena, 0, cx.l, bits))
      {
        WalkDecodes(cx, arena, infos, bits);
      }
    } else {
      var t := FirstWide(cx, infos);
      assert IsWide(cx, infos, t);
      HoleInWide(cx, arena, infos, t);
      var rest := Ones(infos[t].bits) + Ones(BMAX);
      assert rest[..infos[t].bits] == Ones(infos[t].bits);
      HoleFromRoot(cx, arena, infos, t, rest);
      var bits := infos[t].prefix + rest;
      CompleteDecodesAll(cx.lens, bits);
      assert !Agrees(cx, bits, 0, Walk(arena, 0, cx.l, bits));
    }
  }

  const SMALLEST: Ctx := Ctx([1, 2, 3, 3], Meaning(4, [], []), 3, 1)

  /** A complete code of four symbols, looked up one bit at a time, is not decoded right. */
  lemma SmallestOverflow(arena: Arena, infos: seq<Info>)
    requires Built(SMALLEST, arena, infos) && WideExplained(SMALLEST, infos)
    requires NoWideSubtable(SMALLEST, infos) <==> !Overflows(SMALLEST)
    ensures Complete(SMALLEST.lens)
    ensures exists bits: seq<bool> :: |bits| >= BMAX && !Agrees(SMALLEST, bits, 0, Walk(arena, 0, 1, bits))
  {
    SmallestKraft();
    SmallestOverflowsAt();
    hide Built, WideExplained, NoWideSubtable, Complete, OverflowsAt;
    TablesDecodeIff(SMALLEST, arena, infos);
  }

  lemma SmallestKraft()
    ensures Complete(SMALLEST.lens)
  {
    var lens := SMALLEST.lens;
    assert lens[..3] == [1, 2, 3] && lens[..3][..2] == [1, 2] && lens[..3][..2][..1] == [1];
    assert Pow2(13) == 8192 && Pow2(14) == 16384 && Pow2(15) == 32768 && Pow2(16) == 65536;
    assert Kraft([1]) == 32768;
    assert Kraft([1, 2]) == 49152;
    assert Kraft([1, 2, 3]) == 57344;
  }

  lemma SmallestOverflowsAt()
    ensures OverflowsAt(SMALLEST, 2, 1, 32768)
  {
    var lens := SMALLEST.lens;
    assert lens[..3] == [1, 2, 3] && lens[..3][..2] == [1, 2] && lens[..3][..2][..1] == [1];
    assert Pow2(14) == 16384 && Pow2(15) == 32768;
    assert Count([1], 1) == 1 && Count([1, 2], 1) == 1 && Count([1, 2, 3], 1) == 1 && Count(lens, 1) == 1;
    assert Count([1], 2) == 0 && Count([1, 2], 2) == 1 && Count([1, 2, 3], 2) == 1 && Count(lens, 2) == 1;
    assert NextCode(lens, 1) == 0 && NextCode(lens, 2) == 2;
  }

  lemma FirstWide(cx: Ctx, infos: seq<Info>) returns (t: nat)
    requires !NoWideSubtable(cx, infos)
    ensures IsWide(cx, infos, t) && forall t' :: 0 < t' < t ==> infos[t'].bits <= cx.l
  {
    t := 1;
    while infos[t].bits <= cx.l
      invariant 0 < t < |infos|
      invariant forall t' :: 0 < t' < t ==> infos[t'].bits <= cx.l
      invariant exists t' :: t <= t' < |infos| && infos[t'].bits > cx.l
      decreases |infos| - t
    {
      t := t + 1;
    }
  }
}

/**
 The codes inflate is used with: the fixed ones, and why none of the tables it builds
 overflows (see HuftLayout.Overflows).
 */
module FixedCodes {
  import opened Bits
  import opened Huffman
  import opened HuftTables
  import opened HuftLayout
  import opened HuftBuild
  import opened HuftDecode
  import opened HuftWide
  import opened Deflate
  import opened BitBuffer

  lemma {:induction false} KraftAppend(a: Lengths, b: Lengths)
    ensures Kraft(a + b) == Kraft(a) + Kraft(b)
    decreases |b|
  {
    if b == [] {
      assert a + b == a;
    } else {
      var m := |b| - 1;
      KraftAppend(a, b[..m]);
      assert (a + b)[..|a + b| - 1] == a + b[..m];
    }
  }

  lemma {:induction false} KraftRepeat(l: nat, n: nat)
    requires 1 <= l <= BMAX
    ensures Kraft(Repeat(l, n)) == n * Pow2(BMAX - l)
    decreases n
  {
    if n > 0 {
      KraftRepeat(l, n - 1);
      assert Repeat(l, n)[..n - 1] == Repeat(l, n - 1);
      MulDistributes(n - 1, 1, Pow2(BMAX - l));
    }
  }

  lemma FixedLiteralsKraft()
    ensures Complete(FIXED_LITERALS)
  {
    var a, b, c, d := Repeat(8, 144), Repeat(9, 112), Repeat(7, 24), Repeat(8, 8);
    KraftAppend(a, b);
    KraftAppend(a + b, c);
    KraftAppend(a + b + c, d);
    KraftRepeat(8, 144);
    KraftRepeat(9, 112);
    KraftRepeat(7, 24);
    KraftRepeat(8, 8);
    PowersUpTo14();
    assert Pow2(16) == 65536;
    assert FIXED_LITERALS == a + b + c + d;
    hide Kraft, Repeat, Pow2;
  }

  lemma FixedLiteralsComplete()
    ensures Complete(FIXED_LITERALS) && |FIXED_LITERALS| == 288 && !AllUnused(FIXED_LITERALS)
    ensures IsShortest(FIXED_LITERALS, 7) && IsLongest(FIXED_LITERALS, 9)
  {
    FixedLiteralsKraft();
    hide Kraft;
    assert FIXED_LITERALS[256] == 7 && FIXED_LITERALS[144] == 9;
  }

  lemma FixedDistancesUsable()
    ensures !Oversubscribed(FIXED_DISTANCES) && AllUsed(FIXED_DISTANCES) && !AllUnused(FIXED_DISTANCES)
    ensures IsShortest(FIXED_DISTANCES, 5) && IsLongest(FIXED_DISTANCES, 5)
  {
    KraftRepeat(5, 30);
    PowersUpTo14();
    assert Pow2(16) == 65536;
    assert FIXED_DISTANCES[0] == 5;
  }

  /** No overflow if the lookup size is at least half the longest code, or the symbols are few. */
  lemma LookupSuffices(cx: Ctx, lookup: nat, shortest: nat)
    requires CtxOK(cx) && cx.l == Clamp(lookup, shortest, cx.g)
    requires 2 * lookup >= cx.g || (Complete(cx.lens) && |cx.lens| < Pow2(lookup))
    ensures !Overflows(cx)
  {
    if 2 * cx.l >= cx.g {
      BigTablesDoNotOverflow(cx);
    } else {
      Pow2Monotone(lookup, cx.l);
      FewSymbolsDoNotOverflow(cx);
    }
  }

  lemma SomeShortest(lens: seq<nat>) returns (j: nat)
    requires !AllUnused(lens)
    ensures IsShortest(lens, j)
  {
    var s :| 0 <= s < |lens| && lens[s] > 0;
    var m := lens[s];
    var i := 0;
    while i < |lens|
      invariant 0 <= i <= |lens| && m > 0 && m in lens
      invariant forall t :: 0 <= t < i && lens[t] > 0 ==> lens[t] >= m
    {
      if 0 < lens[i] < m {
        m := lens[i];
      }
      i := i + 1;
    }
    j := m;
  }

  /** The tables of a usable code are ready to decode with. */
  lemma TablesReady(lens: Lengths, lookup: nat, arena: Arena, bl: nat, cx: Ctx, infos: seq<HuftTables.Info>)
    requires cx.lens == lens && (AllUnused(lens) ==> arena == [] && bl == 0)
    requires !AllUnused(lens) ==>
      && cx.l == bl && Built(cx, arena, infos) && (NoWideSubtable(cx, infos) <==> !Overflows(cx))
      && (forall j :: IsShortest(lens, j) ==> bl == Clamp(lookup, j, cx.g))
      && (2 * lookup >= cx.g || (Complete(lens) && |lens| < Pow2(lookup)))
    ensures Ready(arena, bl, cx, infos)
  {
    if !AllUnused(lens) {
      var j := SomeShortest(lens);
      LookupSuffices(cx, lookup, j);
    }
  }

  /** A code with one-bit lengths only has longest length 1. */
  lemma OneBitLongest(cx: Ctx)
    requires CtxOK(cx) && OneBitCode(cx.lens)
    ensures cx.g == 1
  {
  }

  /** When the lookup covers the longest code there is only one table. */
  lemma SingleLevel(cx: Ctx, arena: Arena, infos: seq<HuftTables.Info>, idx: nat)
    requires Built(cx, arena, infos) && cx.l == cx.g && idx < |arena[0]|
    ensures !arena[0][idx].Link?
  {
    SlotBelow(infos[0], idx);
    assert SlotDone(cx, arena, infos, 0, idx);
  }
}

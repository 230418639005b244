/**
 What the tables of huft_build are for: walking them decodes the canonical code.
 */
module HuftDecode {
  import opened Basics
  import opened Bits
  import opened Huffman
  import opened HuftTables
  import opened HuftProgress
  import opened HuftLayout
  import opened HuftPush
  import opened HuftWide

  /** The result of a walk agrees with the reference decoder on `bits`. */
  ghost predicate Agrees(cx: Ctx, bits: seq<bool>, used0: nat, r: Walked)
    requires MeaningFor(cx.m, |cx.lens|)
  {
    match RefSymbol(cx.lens, bits)
    case Some(sym) =>
      r.Hit? && used0 + r.used == cx.lens[sym] && r.entry.Entry? && r.entry == SymEntry(cx.m, sym, r.entry.b)
    case None => r.Hole? || (r.entry.Entry? && r.entry.e == 99)
  }

  /** How many bits index table `t`: the root is masked to l bits. */
  function IndexBits(cx: Ctx, infos: seq<Info>, t: nat): nat
    requires t < |infos|
  {
    if t == 0 then cx.l else infos[t].bits
  }

  /** The bits of slot `idx` that the stream really supplied. */
  lemma StreamSlot(cx: Ctx, arena: Arena, infos: seq<Info>, t: nat, rest: seq<bool>)
    requires Built(cx, arena, infos) && t < |infos|
    requires IndexBits(cx, infos, t) <= |rest|
    ensures var nb := IndexBits(cx, infos, t); var idx := Lsb(rest[..nb]);
      && nb <= infos[t].bits && |infos[t].prefix| + nb <= BMAX && idx < |arena[t]|
      && Slot(infos[t], idx) == infos[t].prefix + rest[..nb] + Zeros(infos[t].bits - nb)
      && Lo(BMAX, Slot(infos[t], idx)) == Lo(BMAX, infos[t].prefix + rest[..nb])
      && SlotDone(cx, arena, infos, t, idx)
      && (t == 0 ==> idx < Pow2(cx.l))
  {
    hide Lsb, Pow2, Lo;
    var nb := IndexBits(cx, infos, t);
    var idx := Lsb(rest[..nb]);
    var f := infos[t];
    SlotOfStream(f, rest, nb);
    LoZeros(f.prefix + rest[..nb], f.bits - nb);
    SlotBelow(f, idx);
    assert DoneBefore(cx, arena, infos, Pow2(BMAX));
  }

  /** Past the last code no symbol can be read. */
  lemma NothingPastEnd(lens: Lengths, front: seq<bool>, bits: seq<bool>)
    requires |front| <= BMAX <= |bits| && front <= bits && !Oversubscribed(lens)
    requires Kraft(lens) <= Lo(BMAX, front)
    ensures RefSymbol(lens, bits) == None
  {
    var b := bits[..BMAX];
    PrefixIffInside(BMAX, front, b);
    forall sym
      ensures !Reads(lens, bits, sym)
    {
      if Reads(lens, bits, sym) {
        CodeInterval(lens, sym);
        SymWithin(lens, sym);
        KraftIsEnd(lens);
        assert Code(lens, sym) <= b;
        PrefixIffInside(BMAX, Code(lens, sym), b);
      }
    }
  }

  lemma LeafRead(cx: Ctx, w: nat, s: seq<bool>, front: seq<bool>, bits: seq<bool>, h: Huft, sym: nat)
    requires LeafFor(cx, w, s, h, sym) && !Oversubscribed(cx.lens)
    requires front <= s && front <= bits && cx.lens[sym] <= |front|
    ensures RefSymbol(cx.lens, bits) == Some(sym)
  {
    assert Code(cx.lens, sym) <= front;
    assert Reads(cx.lens, bits, sym);
    PrefixFree(cx.lens, bits, sym, RefSymbol(cx.lens, bits).value);
  }

  /** What the slot that the stream selects says about the bits read so far. */
  lemma SlotMeaning(cx: Ctx, arena: Arena, infos: seq<Info>, t: nat, bits: seq<bool>, w: nat, nb: nat, idx: nat)
    requires Built(cx, arena, infos) && NoWideSubtable(cx, infos) && t < |infos|
    requires infos[t].prefix <= bits && |bits| >= BMAX && w == |infos[t].prefix| && nb == IndexBits(cx, infos, t)
    requires w + nb <= BMAX && idx == Lsb(bits[w..][..nb])
    ensures idx < |arena[t]|
    ensures match arena[t][idx]
            case Entry(e, b, n) => Agrees(cx, bits, w, Hit(arena[t][idx], b)) && (e != 99 ==> b <= nb)
            case Unset => Agrees(cx, bits, w, Hole)
            case Link(e, b, c) =>
              t < c < |infos| && b == nb == cx.l && e == 16 + infos[c].bits && infos[c].prefix == bits[..w + nb]
  {
    hide Agrees, SlotDone, Lo, Lsb, Pow2, Slot, AllLinked, DoneBefore, Oversubscribed, MeaningFor;
    var f := infos[t];
    StreamSlot(cx, arena, infos, t, bits[w..]);
    var front := f.prefix + bits[w..][..nb];
    assert front == bits[..w + nb];
    if arena[t][idx].Link? {
      LinkMeaning(cx, arena, infos, t, idx, front, nb);
    } else {
      FinalMeaning(cx, arena, infos, t, idx, front, bits);
    }
  }

  lemma LinkMeaning(cx: Ctx, arena: Arena, infos: seq<Info>, t: nat, idx: nat, front: seq<bool>, nb: nat)
    requires Shape(cx, arena, infos) && t < |infos| && idx < |arena[t]| && SlotDone(cx, arena, infos, t, idx)
    requires nb == IndexBits(cx, infos, t) && (t > 0 ==> nb <= cx.l)
    requires |front| == |infos[t].prefix| + nb && front <= Slot(infos[t], idx) && arena[t][idx].Link?
    ensures var h := arena[t][idx];
      t < h.t < |infos| && h.b == nb == cx.l && h.e == 16 + infos[h.t].bits && infos[h.t].prefix == front
  {
  }

  lemma FinalMeaning(cx: Ctx, arena: Arena, infos: seq<Info>, t: nat, idx: nat, front: seq<bool>, bits: seq<bool>)
    requires CtxOK(cx) && Shape(cx, arena, infos) && t < |infos| && idx < |arena[t]|
    requires SlotDone(cx, arena, infos, t, idx)
    requires (t > 0 ==> infos[t].bits <= cx.l) && (t == 0 ==> idx < Pow2(cx.l))
    requires |front| == |infos[t].prefix| + IndexBits(cx, infos, t) <= BMAX
    requires front <= Slot(infos[t], idx) && Lo(BMAX, front) == Lo(BMAX, Slot(infos[t], idx))
    requires front <= bits && |bits| >= BMAX && !arena[t][idx].Link?
    ensures Agrees(cx, bits, |infos[t].prefix|,
                   if arena[t][idx].Entry? then Hit(arena[t][idx], arena[t][idx].b) else Hole)
    ensures arena[t][idx].Entry? && arena[t][idx].e != 99 ==> arena[t][idx].b <= IndexBits(cx, infos, t)
  {
    var w, s, h := |infos[t].prefix|, Slot(infos[t], idx), arena[t][idx];
    hide Code, SymEntry, Agrees, Reads;
    if h.Entry? && exists sym: nat :: LeafFor(cx, w, s, h, sym) {
      var sym: nat :| LeafFor(cx, w, s, h, sym);
      assert cx.lens[sym] <= |front| by {
        assert Code(cx.lens, sym) <= s;
      }
      LeafMeaning(cx, w, s, front, bits, h, sym);
    } else {
      assert Dead(cx, w, s);
      DeadMeaning(cx, w, s, front, bits, if h.Entry? then Hit(h, h.b) else Hole);
    }
  }

  lemma DeadMeaning(cx: Ctx, w: nat, s: seq<bool>, front: seq<bool>, bits: seq<bool>, r: Walked)
    requires CtxOK(cx) && Dead(cx, w, s) && |front| <= BMAX <= |bits| && front <= bits && Lo(BMAX, front) == Lo(BMAX, s)
    requires r.Hole? || (r.entry.Entry? && r.entry.e == 99)
    ensures Agrees(cx, bits, w, r)
  {
    hide Lo;
    NothingPastEnd(cx.lens, front, bits);
  }

  lemma LeafMeaning(cx: Ctx, w: nat, s: seq<bool>, front: seq<bool>, bits: seq<bool>, h: Huft, sym: nat)
    requires LeafFor(cx, w, s, h, sym) && !Oversubscribed(cx.lens) && h.Entry?
    requires front <= s && front <= bits && cx.lens[sym] <= |front|
    ensures Agrees(cx, bits, w, Hit(h, h.b)) && w + h.b <= |front|
  {
    LeafRead(cx, w, s, front, bits, h, sym);
  }

  /** From any table on, given that the bits so far led to it. */
  lemma {:induction false} WalkFrom(cx: Ctx, arena: Arena, infos: seq<Info>, t: nat, bits: seq<bool>)
    requires Built(cx, arena, infos) && NoWideSubtable(cx, infos) && t < |infos|
    requires infos[t].prefix <= bits && |bits| >= BMAX
    ensures Agrees(cx, bits, |infos[t].prefix|, Walk(arena, t, IndexBits(cx, infos, t), bits[|infos[t].prefix|..]))
    decreases |infos| - t
  {
    hide Lsb;
    var w, nb := |infos[t].prefix|, IndexBits(cx, infos, t);
    var rest := bits[w..];
    assert w + nb <= BMAX;
    var idx := Lsb(rest[..nb]);
    SlotMeaning(cx, arena, infos, t, bits, w, nb, idx);
    hide Built, NoWideSubtable;
    if arena[t][idx].Link? {
      var c := arena[t][idx].t;
      assert rest[cx.l..] == bits[w + cx.l..];
      WalkFrom(cx, arena, infos, c, bits);
    }
  }

  /**
   Walking the tables decodes, for every bit string, the symbol of the canonical code it
   starts with, and uses exactly the bits of that code.
   */
  lemma WalkDecodes(cx: Ctx, arena: Arena, infos: seq<Info>, bits: seq<bool>)
    requires Built(cx, arena, infos) && NoWideSubtable(cx, infos) && |bits| >= BMAX
    ensures Agrees(cx, bits, 0, Walk(arena, 0, cx.l, bits))
  {
    assert infos[0].prefix == [];
    assert bits[0..] == bits;
    WalkFrom(cx, arena, infos, 0, bits);
  }

  // ------------------------------------------------------------------
  // A complete code decodes everything

  lemma {:induction false} NthSymbol(lens: seq<nat>, k: nat, r: nat) returns (sym: nat)
    requires r < Count(lens, k)
    ensures sym < |lens| && lens[sym] == k && Rank(lens, sym) == r
  {
    var m := |lens| - 1;
    if lens[m] == k && r == Count(lens[..m], k) {
      sym := m;
    } else {
      sym := NthSymbol(lens[..m], k, r);
      assert lens[..m][..sym] == lens[..sym];
    }
  }

  lemma {:induction false} LengthAt(lens: Lengths, x: nat, k: nat) returns (j: nat)
    requires 1 <= k <= BMAX && x < End(lens, k)
    ensures 1 <= j <= k && Base(lens, j) <= x < End(lens, j)
    decreases k
  {
    if Base(lens, k) <= x {
      j := k;
    } else {
      assert k > 1;
      BaseStep(lens, k - 1);
      j := LengthAt(lens, x, k - 1);
    }
  }

  lemma QuotientBounds(n: nat, c: nat, d: nat, x: nat) returns (r: nat)
    requires d > 0 && n * d <= x < n * d + c * d
    ensures r < c && (n + r) * d <= x < (n + r) * d + d
  {
    r := (x - n * d) / d;
    MulDistributes(n, r, d);
    assert x - n * d == r * d + (x - n * d) % d;
    ScaledLess(r, c, d);
  }

  /** Every position before the end of the last code lies in the code of some symbol. */
  lemma SymbolAt(lens: Lengths, x: nat) returns (sym: nat)
    requires x < Kraft(lens)
    ensures Used(lens, sym) && SymLo(lens, sym) <= x < SymHi(lens, sym)
  {
    KraftIsEnd(lens);
    var k := LengthAt(lens, x, BMAX);
    var r := QuotientBounds(NextCode(lens, k), Count(lens, k), Pow2(BMAX - k), x);
    sym := NthSymbol(lens, k, r);
  }

  lemma CompleteDecodesAll(lens: Lengths, bits: seq<bool>)
    requires Complete(lens) && |bits| >= BMAX
    ensures RefSymbol(lens, bits).Some?
  {
    var b := bits[..BMAX];
    var sym := SymbolAt(lens, Msb(b));
    CodeInterval(lens, sym);
    assert Lo(BMAX, b) == Msb(b);
    PrefixIffInside(BMAX, Code(lens, sym), b);
    assert Reads(lens, bits, sym);
  }
}

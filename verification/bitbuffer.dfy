/**
 The bit buffer of inflate (boot/zBoot/inflate.c, NEEDBITS and DUMPBITS): b holds the
 next k bits of the input, first bit least significant. Since b < 2^k, or-ing a byte in
 at bit k is adding byte * 2^k, masking is a remainder and shifting right a quotient.
 */
module BitBuffer {
  import opened Basics
  import opened Bits
  import opened Huffman
  import opened Deflate
  import opened HuftTables
  import opened HuftDecode

  ghost predicate IsTail(all: seq<bool>, rest: seq<bool>) {
    |rest| <= |all| && rest == all[|all| - |rest|..]
  }

  /** A refill for at most 16 bits leaves no more than this in the buffer. */
  const MOST_BITS: nat := 23

  /** Buffer and input position stand at the bits `rest`, the last ones of the input. */
  ghost predicate Synced(input: seq<byte>, inptr: nat, b: nat, k: nat, rest: seq<bool>) {
    && inptr <= |input| && k <= |rest| && k <= MOST_BITS && IsTail(BitsOf(input), rest)
    && b == Lsb(rest[..k]) && rest[k..] == BitsOf(input[inptr..])
  }

  lemma {:induction false} BitsFrom(input: seq<byte>, p: nat)
    requires p <= |input|
    ensures BitsOf(input[p..]) == BitsOf(input)[8 * p..]
    decreases p
  {
    if p > 0 {
      BitsFrom(input[1..], p - 1);
      assert input[p..] == input[1..][p - 1..];
    } else {
      assert input[p..] == input;
    }
  }

  /** Giving whole bytes back to the input leaves the bits after the next byte boundary. */
  lemma GiveBack(input: seq<byte>, inptr: nat, b: nat, k: nat, rest: seq<bool>)
    requires Synced(input, inptr, b, k, rest)
    ensures k / 8 <= inptr && BitsOf(input[inptr - k / 8..]) == Align(rest)
  {
    hide BitsOf, Lsb, Pow2;
    SyncedBound(input, inptr, b, k, rest);
    var p := inptr - k / 8;
    BitsFrom(input, p);
    assert |rest| % 8 == k % 8;
    assert |Align(rest)| == 8 * (|input| - p);
  }

  /** The buffer holds k bits, and never more than fit a 32-bit word. */
  lemma SyncedBound(input: seq<byte>, inptr: nat, b: nat, k: nat, rest: seq<bool>)
    requires Synced(input, inptr, b, k, rest)
    ensures inptr <= |input| && b < Pow2(k) && |rest| == k + 8 * (|input| - inptr)
    ensures k <= MOST_BITS && b < WORD
  {
    Pow2Monotone(k, MOST_BITS);
    MostWord();
  }

  lemma MostWord()
    ensures Pow2(MOST_BITS) < WORD
  {
    assert Pow2(8) == 256;
    assert Pow2(16) == 0x1_0000;
  }

  lemma NextByteBits(input: seq<byte>, inptr: nat)
    requires inptr < |input|
    ensures BitsOf(input[inptr..]) == LsbBits(input[inptr], 8) + BitsOf(input[inptr + 1..])
    ensures Lsb(LsbBits(input[inptr], 8)) == input[inptr]
  {
    assert input[inptr..][1..] == input[inptr + 1..];
    assert Pow2(8) == 256;
    LsbOfBits(input[inptr], 8);
  }

  function Times(x: nat, y: nat): nat {
    x * y
  }

  /** A byte moved up to bit k. */
  function Raised(x: nat, k: nat): nat {
    Times(x, Pow2(k))
  }

  lemma TakeByte(input: seq<byte>, inptr: nat, b: nat, k: nat, rest: seq<bool>)
    requires Synced(input, inptr, b, k, rest) && inptr < |input| && k < BMAX
    ensures Synced(input, inptr + 1, b + Raised(input[inptr], k), k + 8, rest)
  {
    hide Raised;
    var bits := LsbBits(input[inptr], 8);
    NextByteBits(input, inptr);
    hide Lsb, LsbBits, BitsOf, Pow2;
    MoveBits(rest, k, bits, BitsOf(input[inptr + 1..]));
    AppendByte(rest[..k], bits, input[inptr]);
  }

  lemma MoveBits(rest: seq<bool>, k: nat, bits: seq<bool>, more: seq<bool>)
    requires k <= |rest| && rest[k..] == bits + more
    ensures k + |bits| <= |rest| && rest[..k + |bits|] == rest[..k] + bits && rest[k + |bits|..] == more
  {
    assert rest[k + |bits|..] == rest[k..][|bits|..];
  }

  lemma AppendByte(s: seq<bool>, bits: seq<bool>, x: nat)
    requires Lsb(bits) == x
    ensures Lsb(s + bits) == Lsb(s) + Raised(x, |s|)
  {
    hide Lsb, Pow2;
    LsbAppend(s, bits);
    TimesCommutes(x, Pow2(|s|));
  }

  lemma TimesCommutes(x: nat, y: nat)
    ensures Times(x, y) == y * x
  {
  }

  function Quotient(b: nat, d: nat): nat
    requires d > 0
  {
    b / d
  }

  /** The buffer without its n low bits. */
  function Dropped(b: nat, n: nat): nat {
    Quotient(b, Pow2(n))
  }

  lemma Dump(input: seq<byte>, inptr: nat, b: nat, k: nat, rest: seq<bool>, n: nat)
    requires n <= k && Synced(input, inptr, b, k, rest)
    ensures n <= |rest| && Synced(input, inptr, Dropped(b, n), k - n, rest[n..])
  {
    LsbSplit(rest[..k], n);
    hide Pow2, Lsb, BitsOf;
    assert rest[..k][n..] == rest[n..][..k - n];
    assert rest[n..][k - n..] == rest[k..];
    TailOfTail(BitsOf(input), rest, n);
  }

  lemma TailOfTail(all: seq<bool>, rest: seq<bool>, n: nat)
    requires IsTail(all, rest) && n <= |rest|
    ensures IsTail(all, rest[n..])
  {
  }

  lemma Peek(input: seq<byte>, inptr: nat, b: nat, k: nat, rest: seq<bool>, n: nat)
    requires Synced(input, inptr, b, k, rest) && n <= k
    ensures b % Pow2(n) == Lsb(rest[..n])
  {
    LsbSplit(rest[..k], n);
    assert rest[..k][..n] == rest[..n];
  }

  // ------------------------------------------------------------------
  // Decoding near the end of the input: the bits are padded with zeros

  ghost function Padded(rest: seq<bool>): (s: seq<bool>)
    ensures |s| >= BMAX
  {
    rest + Zeros(BMAX)
  }

  lemma ReadsPadded(lens: seq<nat>, rest: seq<bool>, sym: nat)
    ensures Reads(lens, rest, sym) ==> Reads(lens, Padded(rest), sym)
    ensures Reads(lens, Padded(rest), sym) && lens[sym] <= |rest| ==> Reads(lens, rest, sym)
  {
    if Used(lens, sym) && |Code(lens, sym)| <= |rest| {
      assert Padded(rest)[..|Code(lens, sym)|] == rest[..|Code(lens, sym)|];
    }
  }

  /** What the padded bits decode to, the real ones do as well, if the code fits. */
  lemma SymbolPadded(lens: Lengths, rest: seq<bool>)
    requires !Oversubscribed(lens)
    ensures RefSymbol(lens, Padded(rest)).None? ==> RefSym(lens, rest).Stuck?
    ensures RefSymbol(lens, Padded(rest)).Some? ==>
      var sym := RefSymbol(lens, Padded(rest)).value;
      RefSym(lens, rest) == if lens[sym] <= |rest| then Done(sym, rest[lens[sym]..]) else Stuck
  {
    var padded := RefSymbol(lens, Padded(rest));
    if padded.Some? {
      ReadsPadded(lens, rest, padded.value);
    }
    match RefSymbol(lens, rest)
    case None =>
    case Some(s) =>
      ReadsPadded(lens, rest, s);
      PrefixFree(lens, Padded(rest), s, padded.value);
  }

  /** The tables for a code, ready to decode with; no tables if no symbol is used. */
  ghost predicate Ready(arena: Arena, bl: nat, cx: Ctx, infos: seq<Info>) {
    || (arena == [] && bl == 0 && AllUnused(cx.lens))
    || (arena != [] && Built(cx, arena, infos) && NoWideSubtable(cx, infos) && bl == cx.l)
  }

  lemma NothingUsed(lens: seq<nat>, rest: seq<bool>)
    requires AllUnused(lens)
    ensures RefSym(lens, rest).Stuck?
  {
  }

  /** Standing at table `t` after the bits of its prefix. */
  ghost predicate AtTable(cx: Ctx, infos: seq<Info>, t: nat, nb: nat, start: seq<bool>, rest: seq<bool>) {
    && t < |infos| && start == infos[t].prefix + rest
    && nb == IndexBits(cx, infos, t) && |infos[t].prefix| + nb <= BMAX
  }

  lemma AtRoot(cx: Ctx, arena: Arena, infos: seq<Info>, rest: seq<bool>)
    requires Built(cx, arena, infos)
    ensures AtTable(cx, infos, 0, cx.l, rest, rest)
  {
    assert [] + rest == rest;
  }

  lemma PaddedTail(pi: seq<bool>, rest: seq<bool>, nb: nat)
    requires nb <= |rest|
    ensures pi <= Padded(pi + rest) && Padded(pi + rest)[|pi|..][..nb] == rest[..nb]
    ensures Padded(pi + rest)[|pi|..] == Padded(rest)
    ensures Padded(pi + rest)[..|pi| + nb] == pi + rest[..nb]
  {
  }

  /** The slot selected by the buffered bits, in terms of the bits decoding started at. */
  lemma SlotRead(cx: Ctx, arena: Arena, infos: seq<Info>, t: nat, nb: nat, start: seq<bool>, rest: seq<bool>)
    requires Built(cx, arena, infos) && NoWideSubtable(cx, infos) && AtTable(cx, infos, t, nb, start, rest)
    requires nb <= |rest|
    ensures Lsb(rest[..nb]) < |arena[t]|
    ensures match arena[t][Lsb(rest[..nb])]
            case Entry(e, b, n) =>
              Agrees(cx, Padded(start), |infos[t].prefix|, Hit(Entry(e, b, n), b)) && (e != 99 ==> b <= nb)
            case Unset => Agrees(cx, Padded(start), |infos[t].prefix|, Hole)
            case Link(e, b, c) =>
              t < c < |infos| && b == nb && e >= 16 && AtTable(cx, infos, c, e - 16, start, rest[b..])
  {
    var w := |infos[t].prefix|;
    PaddedTail(infos[t].prefix, rest, nb);
    SlotMeaning(cx, arena, infos, t, Padded(start), w, nb, Lsb(rest[..nb]));
    var h := arena[t][Lsb(rest[..nb])];
    if h.Link? {
      assert infos[h.t].prefix == infos[t].prefix + rest[..nb];
      assert start == infos[h.t].prefix + rest[nb..];
    }
  }

  /** The symbol's code extends the prefix of every table met on the way. */
  lemma SymbolBeyond(cx: Ctx, arena: Arena, infos: seq<Info>, t: nat, nb: nat, start: seq<bool>, rest: seq<bool>)
    requires Built(cx, arena, infos) && NoWideSubtable(cx, infos) && AtTable(cx, infos, t, nb, start, rest)
    ensures RefSym(cx.lens, start).Done? ==> |RefSym(cx.lens, start).rest| <= |rest|
  {
    PaddedTail(infos[t].prefix, rest, 0);
    WalkFrom(cx, arena, infos, t, Padded(start));
    SymbolPadded(cx.lens, start);
  }

  /** The outcome of a final entry. */
  lemma EntryRead(cx: Ctx, infos: seq<Info>, t: nat, nb: nat, start: seq<bool>, rest: seq<bool>, h: Huft)
    requires CtxOK(cx) && AtTable(cx, infos, t, nb, start, rest) && nb <= |rest| && h.Entry?
    requires Agrees(cx, Padded(start), |infos[t].prefix|, Hit(h, h.b)) && (h.e != 99 ==> h.b <= nb)
    ensures h.e != 99 ==>
      && RefSym(cx.lens, start).Done? && RefSym(cx.lens, start).rest == rest[h.b..]
      && SymEntry(cx.m, RefSym(cx.lens, start).value, h.b) == h
    ensures h.e == 99 ==>
      RefSym(cx.lens, start).Stuck? || SymEntry(cx.m, RefSym(cx.lens, start).value, h.b) == h
  {
    SymbolPadded(cx.lens, start);
  }
}

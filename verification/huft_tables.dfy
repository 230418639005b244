/**
 The lookup tables inflate decodes with, and what it means for them to be right.
 A table sits at a prefix of the code: it is reached after those bits were read,
 and its slots are indexed by the bits that come next, first bit least significant.
 */
module HuftTables {
  import opened Bits
  import opened Huffman

  /**
   One slot. Entry covers literals (e = 16), end of block (e = 15), lengths and
   distances (e = number of extra bits) and invalid codes (e = 99); Link holds the
   index of a subtable in the arena, with e = 16 + its number of index bits.
   Unset is memory nobody wrote.
   */
  datatype Huft =
    | Entry(e: nat, b: nat, n: nat)
    | Link(e: nat, b: nat, t: nat)
    | Unset

  type Arena = seq<seq<Huft>>

  /** The last four arguments of huft_build: symbols below `s` are literal, the others look up base and extra. */
  datatype Meaning = Meaning(s: nat, base: seq<nat>, extra: seq<nat>)

  ghost predicate MeaningFor(m: Meaning, n: nat) {
    n <= m.s || (n - m.s <= |m.base| && n - m.s <= |m.extra|)
  }

  function SymEntry(m: Meaning, sym: nat, b: nat): Huft
    requires sym < m.s || (sym - m.s < |m.base| && sym - m.s < |m.extra|)
  {
    if sym < m.s then Entry(if sym < 256 then 16 else 15, b, sym)
    else Entry(m.extra[sym - m.s], b, m.base[sym - m.s])
  }

  // ------------------------------------------------------------------
  // Walking the tables, as inflate_codes does

  datatype Walked = Hit(entry: Huft, used: nat) | Hole

  /** Index table `t` with the next `nb` bits and follow links; Hole if an unset or missing slot is read. */
  function Walk(arena: Arena, t: nat, nb: nat, bits: seq<bool>): Walked
    decreases |bits|
  {
    if nb > |bits| || t >= |arena| || Lsb(bits[..nb]) >= |arena[t]| then Hole
    else
      match arena[t][Lsb(bits[..nb])]
      case Unset => Hole
      case Entry(e, b, n) => Hit(Entry(e, b, n), b)
      case Link(e, b, t') =>
        if b == 0 || b > |bits| || e < 16 then Hole
        else
          match Walk(arena, t', e - 16, bits[b..])
          case Hole => Hole
          case Hit(h, used) => Hit(h, b + used)
  }

  // ------------------------------------------------------------------
  // Where tables sit (proof bookkeeping)

  /** The bits that lead to a table, the number of bits that index it, and the table it hangs from. */
  datatype Info = Info(prefix: seq<bool>, bits: nat, parent: nat)

  /** What is fixed during one construction: the code, its longest length `g`, the bits per table `l`. */
  datatype Ctx = Ctx(lens: Lengths, m: Meaning, g: nat, l: nat)

  ghost predicate CtxOK(cx: Ctx) {
    && 1 <= cx.l <= cx.g <= BMAX
    && (forall i :: 0 <= i < |cx.lens| ==> cx.lens[i] <= cx.g)
    && cx.g in cx.lens
    && !Oversubscribed(cx.lens)
    && MeaningFor(cx.m, |cx.lens|)
  }

  /** All bits a slot stands for. */
  function Slot(f: Info, idx: nat): (s: seq<bool>)
    ensures |s| == |f.prefix| + f.bits
  {
    f.prefix + LsbBits(idx, f.bits)
  }

  ghost predicate Shape(cx: Ctx, arena: Arena, infos: seq<Info>) {
    && |arena| == |infos|
    && (forall t :: 0 <= t < |arena| ==>
         && |arena[t]| == Pow2(infos[t].bits)
         && |infos[t].prefix| + infos[t].bits <= BMAX
         && 1 <= infos[t].bits)
    && (|infos| > 0 ==> infos[0].prefix == [])
  }

  /** Table `t` is linked from its parent at the slot its prefix names. */
  ghost predicate Linked(cx: Ctx, arena: Arena, infos: seq<Info>, t: nat)
    requires Shape(cx, arena, infos) && 0 < t < |infos|
  {
    var f := infos[t];
    var w := |f.prefix| - cx.l;
    && w >= 0 && f.parent < t
    && infos[f.parent].prefix == f.prefix[..w]
    && infos[f.parent].bits >= cx.l
    && var ix := Lsb(f.prefix[w..]);
    && ix < |arena[f.parent]|
    && arena[f.parent][ix] == Link(16 + f.bits, cx.l, t)
  }

  /** Slot string `s` of a table at depth `w` is decided by the code of `sym`. */
  ghost predicate LeafFor(cx: Ctx, w: nat, s: seq<bool>, h: Huft, sym: nat) {
    && Used(cx.lens, sym)
    && w < cx.lens[sym] <= w + cx.l
    && Code(cx.lens, sym) <= s
    && MeaningFor(cx.m, |cx.lens|)
    && h == SymEntry(cx.m, sym, cx.lens[sym] - w)
  }

  /** Past the last code: only the dummy codes of an incomplete set lie here. */
  ghost predicate Dead(cx: Ctx, w: nat, s: seq<bool>) {
    |s| <= BMAX && Kraft(cx.lens) <= Lo(BMAX, s) && cx.g <= w + cx.l
  }

  /** Links go into the first 2^l slots only, however many index bits the table has. */
  ghost predicate MissingLink(cx: Ctx, arena: Arena, infos: seq<Info>, t: nat, idx: nat)
    requires Shape(cx, arena, infos) && t < |arena| && idx < |arena[t]|
  {
    infos[t].bits > cx.l && idx >= Pow2(cx.l)
  }

  ghost predicate SlotDone(cx: Ctx, arena: Arena, infos: seq<Info>, t: nat, idx: nat)
    requires Shape(cx, arena, infos) && t < |arena| && idx < |arena[t]|
  {
    var f := infos[t];
    var w, s, h := |f.prefix|, Slot(f, idx), arena[t][idx];
    match h
    case Entry(e, _, _) =>
      (exists sym :: LeafFor(cx, w, s, h, sym)) || (e == 99 && Dead(cx, w, s))
    case Link(e, b, c) =>
      && t < c < |infos| && w + cx.l <= |s| && !MissingLink(cx, arena, infos, t, idx)
      && infos[c].prefix == s[..w + cx.l] && b == cx.l && e == 16 + infos[c].bits
    case Unset =>
      (Dead(cx, w, s) && !AllUsed(cx.lens)) || MissingLink(cx, arena, infos, t, idx)
  }

  /** Every slot that begins before position `p` is final. */
  ghost predicate DoneBefore(cx: Ctx, arena: Arena, infos: seq<Info>, p: nat)
    requires Shape(cx, arena, infos)
  {
    forall t, idx :: 0 <= t < |arena| && 0 <= idx < |arena[t]| && Lo(BMAX, Slot(infos[t], idx)) < p ==>
      SlotDone(cx, arena, infos, t, idx)
  }

  ghost predicate AllLinked(cx: Ctx, arena: Arena, infos: seq<Info>)
    requires Shape(cx, arena, infos)
  {
    forall t :: 0 < t < |infos| ==> Linked(cx, arena, infos, t)
  }

  /** What huft_build leaves behind. */
  ghost predicate Built(cx: Ctx, arena: Arena, infos: seq<Info>) {
    && CtxOK(cx) && Shape(cx, arena, infos)
    && |infos| > 0 && infos[0].bits >= cx.l
    && (forall t :: 0 <= t < |infos| ==> |infos[t].prefix| < cx.g)
    && DoneBefore(cx, arena, infos, Pow2(BMAX))
    && AllLinked(cx, arena, infos)
  }

  /** No subtable has more index bits than links can fill. */
  ghost predicate NoWideSubtable(cx: Ctx, infos: seq<Info>) {
    forall t :: 0 < t < |infos| ==> infos[t].bits <= cx.l
  }

  // ------------------------------------------------------------------
  // Slots and bit strings

  lemma SlotBelow(f: Info, idx: nat)
    requires |f.prefix| + f.bits <= BMAX
    ensures Lo(BMAX, Slot(f, idx)) < Hi(BMAX, f.prefix) <= Pow2(BMAX)
    ensures Lo(BMAX, f.prefix) <= Lo(BMAX, Slot(f, idx))
  {
    LoAppend(BMAX, f.prefix, LsbBits(idx, f.bits));
    HiBound(BMAX, Slot(f, idx));
    HiBound(BMAX, f.prefix);
  }

  /** The low `n` index bits of a slot are its remainder modulo 2^n. */
  lemma LsbBitsPrefix(idx: nat, bits: nat, n: nat)
    requires idx < Pow2(bits) && n <= bits
    ensures Lsb(LsbBits(idx, bits)[..n]) == idx % Pow2(n)
  {
    LsbOfBits(idx, bits);
    LsbSplit(LsbBits(idx, bits), n);
  }

  /** The slot the next bits of the stream select. */
  lemma SlotOfStream(f: Info, bits: seq<bool>, nb: nat)
    requires nb <= |bits| && nb <= f.bits
    ensures Lsb(bits[..nb]) < Pow2(f.bits)
    ensures Slot(f, Lsb(bits[..nb])) == f.prefix + bits[..nb] + Zeros(f.bits - nb)
  {
    var s := bits[..nb] + Zeros(f.bits - nb);
    assert Slot(f, Lsb(s)) == f.prefix + s by {
      BitsOfLsb(s);
    }
    hide Slot;
    LsbZeros(bits[..nb], f.bits - nb);
    Pow2Monotone(nb, f.bits);
    assert f.prefix + s == f.prefix + bits[..nb] + Zeros(f.bits - nb);
  }

  /** A string that continues with zeros begins where its front begins. */
  lemma LoZeros(s: seq<bool>, n: nat)
    requires |s| + n <= BMAX
    ensures Lo(BMAX, s + Zeros(n)) == Lo(BMAX, s)
  {
    LoAppend(BMAX, s, Zeros(n));
    ZerosValue(n);
  }
}

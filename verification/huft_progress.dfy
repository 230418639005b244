/**
 The invariant of huft_build's table loop. Codes are handed out in order of
 position, so at position `p` every slot before `p` is final, the tables on the
 stack are those whose interval contains `p`, and all others are finished.
 */
module HuftProgress {
  import opened Bits
  import opened Huffman
  import opened HuftTables

  /** The table stack u[0..h] with the pattern x[a] that leads to each level. */
  datatype Stack = Stack(u: seq<nat>, x: seq<nat>, h: int)

  /** Level `a` of the stack hangs from the level below it. */
  ghost predicate Rung(cx: Ctx, infos: seq<Info>, st: Stack, a: int) {
    0 < a <= st.h < |st.u| ==>
      var child, parent := st.u[a], st.u[a - 1];
      && parent < |infos| && 0 < child < |infos|
      && infos[child].parent == parent
      && |infos[child].prefix| == |infos[parent].prefix| + cx.l
  }

  ghost predicate Chain(cx: Ctx, infos: seq<Info>, st: Stack) {
    && |st.u| == BMAX && |st.x| == BMAX + 1 && -1 <= st.h < BMAX
    && (forall a :: 0 <= a <= st.h ==> st.u[a] < |infos| && a <= |infos[st.u[a]].prefix|)
    && (forall a :: 0 <= a <= st.h ==> st.x[a] == Lsb(infos[st.u[a]].prefix))
    && (forall a :: 0 <= a <= st.h ==> infos[st.u[a]].prefix <= infos[st.u[st.h]].prefix)
    && (forall a :: Rung(cx, infos, st, a))
    && (st.h >= 0 ==> st.u[0] == 0)
    && (st.h == -1 <==> |infos| == 0)
  }

  ghost predicate OnStack(st: Stack, t: nat) {
    exists a :: 0 <= a <= st.h < |st.u| && st.u[a] == t
  }

  ghost predicate Finished(infos: seq<Info>, st: Stack, p: nat) {
    forall t :: 0 <= t < |infos| && !OnStack(st, t) ==>
      |infos[t].prefix| <= BMAX && Hi(BMAX, infos[t].prefix) <= p
  }

  /** A table with fewer index bits than allowed is exactly filled by the codes that fit it. */
  ghost predicate Fits(cx: Ctx, f: Info) {
    var k := |f.prefix| + f.bits;
    && |f.prefix| < cx.g
    && (k >= cx.g || f.bits >= cx.l
        || (k < BMAX && Hi(BMAX, f.prefix) <= Base(cx.lens, k + 1)))
  }

  /** Slots of a wide table that links cannot reach are untouched until their position is passed. */
  ghost predicate HolesUnset(cx: Ctx, arena: Arena, infos: seq<Info>, p: nat)
    requires Shape(cx, arena, infos)
  {
    forall t, idx | 0 <= t < |arena| && 0 <= idx < |arena[t]| && MissingLink(cx, arena, infos, t, idx) ::
      p <= Lo(BMAX, Slot(infos[t], idx)) ==> arena[t][idx] == Unset
  }

  /** The part of the invariant that does not depend on where the stack points. */
  ghost predicate Tables(cx: Ctx, arena: Arena, infos: seq<Info>, p: nat) {
    && CtxOK(cx) && Shape(cx, arena, infos)
    && DoneBefore(cx, arena, infos, p)
    && AllLinked(cx, arena, infos)
    && HolesUnset(cx, arena, infos, p)
    && (forall t :: 0 <= t < |infos| ==> Fits(cx, infos[t]))
  }

  /** The invariant at position `p`, whose bit string is `cur`. */
  ghost predicate Progress(cx: Ctx, arena: Arena, infos: seq<Info>, st: Stack, p: nat, cur: seq<bool>) {
    && Tables(cx, arena, infos, p)
    && Chain(cx, infos, st) && Finished(infos, st, p)
    && |cur| == BMAX && Msb(cur) == p
    && (st.h >= 0 ==> infos[st.u[st.h]].prefix <= cur)
  }

  /** Bits decoded before the table on top of the stack (w in huft_build). */
  ghost function Depth(cx: Ctx, infos: seq<Info>, st: Stack): int
    requires Chain(cx, infos, st)
  {
    if st.h < 0 then 0 - cx.l else |infos[st.u[st.h]].prefix|
  }

  // ------------------------------------------------------------------
  // Adding a subtable

  /** The child of the top table is not on the stack. */
  lemma ChildIsOff(cx: Ctx, infos: seq<Info>, st: Stack, t: nat)
    requires Chain(cx, infos, st) && cx.l > 0 && 0 < t < |infos|
    requires st.h >= 0 && infos[t].parent == st.u[st.h]
    ensures !OnStack(st, t)
  {
    forall a | 0 <= a <= st.h
      ensures st.u[a] != t
    {
      assert Rung(cx, infos, st, a);
      assert infos[st.u[a]].prefix <= infos[st.u[st.h]].prefix;
    }
  }

  function Fresh(n: nat): (t: seq<Huft>)
    ensures |t| == n
    ensures forall i :: 0 <= i < n ==> t[i] == Unset
  {
    seq(n, _ => Unset)
  }

  /** The slot of the parent that the link goes into begins exactly at the current position. */
  lemma LinkSlot(cx: Ctx, f: Info, pi: seq<bool>)
    requires 1 <= cx.l <= f.bits && |f.prefix| + f.bits <= BMAX
    requires |pi| == |f.prefix| + cx.l && f.prefix <= pi
    ensures var ix := Lsb(pi[|f.prefix|..]);
      ix < Pow2(cx.l) <= Pow2(f.bits) && Lo(BMAX, Slot(f, ix)) == Lo(BMAX, pi) &&
      Slot(f, ix)[..|pi|] == pi
  {
    var tail := pi[|f.prefix|..];
    Pow2Monotone(cx.l, f.bits);
    SlotOfStream(f, tail, cx.l);
    assert tail[..cx.l] == tail;
    assert f.prefix + tail == pi;
    LoZeros(pi, f.bits - cx.l);
  }

  function PushArena(cx: Ctx, arena: Arena, parent: nat, ix: nat, bits: nat): Arena
    requires parent < |arena| && ix < |arena[parent]|
  {
    arena[parent := arena[parent][ix := Link(16 + bits, cx.l, |arena|)]] + [Fresh(Pow2(bits))]
  }

  /** A new table with `bits` index bits at position `p`, linked from slot `ix` of `parent`. */
  ghost predicate Pushes(cx: Ctx, arena: Arena, infos: seq<Info>, arena': Arena, infos': seq<Info>,
                         parent: nat, pi: seq<bool>, bits: nat)
  {
    && Shape(cx, arena, infos) && parent < |infos|
    && 1 <= cx.l <= infos[parent].bits
    && infos[parent].prefix <= pi && |pi| == |infos[parent].prefix| + cx.l
    && |pi| + bits <= BMAX && 1 <= bits
    && infos' == infos + [Info(pi, bits, parent)]
    && var ix := Lsb(pi[|infos[parent].prefix|..]);
    && ix < |arena[parent]|
    && arena' == PushArena(cx, arena, parent, ix, bits)
  }

  lemma PushShape(cx: Ctx, arena: Arena, infos: seq<Info>, arena': Arena, infos': seq<Info>, parent: nat, pi: seq<bool>,
                  bits: nat)
    requires Pushes(cx, arena, infos, arena', infos', parent, pi, bits)
    ensures Shape(cx, arena', infos')
  {
  }

  lemma PushDone(cx: Ctx, arena: Arena, infos: seq<Info>, arena': Arena, infos': seq<Info>, parent: nat, pi: seq<bool>,
                 bits: nat)
    requires Pushes(cx, arena, infos, arena', infos', parent, pi, bits)
    requires DoneBefore(cx, arena, infos, Lo(BMAX, pi))
    ensures Shape(cx, arena', infos') && DoneBefore(cx, arena', infos', Lo(BMAX, pi))
  {
    PushShape(cx, arena, infos, arena', infos', parent, pi, bits);
    LinkSlot(cx, infos[parent], pi);
    forall t, idx | 0 <= t < |arena'| && 0 <= idx < |arena'[t]| && Lo(BMAX, Slot(infos'[t], idx)) < Lo(BMAX, pi)
      ensures SlotDone(cx, arena', infos', t, idx)
    {
      if t == |arena| {
        SlotBelow(infos'[t], idx);
      } else {
        assert SlotDone(cx, arena, infos, t, idx);
        assert arena'[t][idx] == arena[t][idx];
      }
    }
  }

  lemma PushHoles(cx: Ctx, arena: Arena, infos: seq<Info>, arena': Arena, infos': seq<Info>, parent: nat, pi: seq<bool>,
                  bits: nat)
    requires Pushes(cx, arena, infos, arena', infos', parent, pi, bits)
    requires HolesUnset(cx, arena, infos, Lo(BMAX, pi))
    ensures Shape(cx, arena', infos') && HolesUnset(cx, arena', infos', Lo(BMAX, pi))
  {
    PushShape(cx, arena, infos, arena', infos', parent, pi, bits);
    LinkSlot(cx, infos[parent], pi);
    forall t, idx | 0 <= t < |arena'| && 0 <= idx < |arena'[t]| && MissingLink(cx, arena', infos', t, idx)
      && Lo(BMAX, pi) <= Lo(BMAX, Slot(infos'[t], idx))
      ensures arena'[t][idx] == Unset
    {
      if t < |arena| {
        assert MissingLink(cx, arena, infos, t, idx);
      }
    }
  }

  lemma SamePrefix(a: seq<bool>, b: seq<bool>, w: nat)
    requires w <= |a| == |b| && a[..w] == b[..w] && Lsb(a[w..]) == Lsb(b[w..])
    ensures a == b
  {
    LsbInjective(a[w..], b[w..]);
    assert a == a[..w] + a[w..] && b == b[..w] + b[w..];
  }

  /** Two tables do not hang from the same slot: the other one would have to be finished. */
  lemma LinkSlotIsFree(cx: Ctx, arena: Arena, infos: seq<Info>, st: Stack, pi: seq<bool>, t: nat)
    requires Chain(cx, infos, st) && st.h >= 0 && cx.l >= 1
    requires Shape(cx, arena, infos) && 0 < t < |infos| && Linked(cx, arena, infos, t)
    requires infos[t].parent == st.u[st.h] && |pi| == |infos[t].prefix| <= BMAX
    requires infos[st.u[st.h]].prefix <= pi && Finished(infos, st, Lo(BMAX, pi))
    ensures Lsb(infos[t].prefix[|pi| - cx.l..]) != Lsb(pi[|pi| - cx.l..])
  {
    var w := |pi| - cx.l;
    ChildIsOff(cx, infos, st, t);
    if Lsb(infos[t].prefix[w..]) == Lsb(pi[w..]) {
      SamePrefix(infos[t].prefix, pi, w);
    }
  }

  lemma PushLinked(cx: Ctx, arena: Arena, infos: seq<Info>, arena': Arena, infos': seq<Info>, st: Stack, pi: seq<bool>,
                   bits: nat)
    requires Chain(cx, infos, st) && st.h >= 0
    requires Pushes(cx, arena, infos, arena', infos', st.u[st.h], pi, bits)
    requires AllLinked(cx, arena, infos) && Finished(infos, st, Lo(BMAX, pi))
    ensures Shape(cx, arena', infos') && AllLinked(cx, arena', infos')
  {
    PushShape(cx, arena, infos, arena', infos', st.u[st.h], pi, bits);
    forall t | 0 < t < |infos'|
      ensures Linked(cx, arena', infos', t)
    {
      if t < |infos| {
        assert Linked(cx, arena, infos, t);
        PushLinkedOne(cx, arena, infos, arena', infos', st, pi, bits, t);
      } else {
        NewLink(cx, arena, infos, arena', infos', st.u[st.h], pi, bits);
      }
    }
  }

  lemma PushLinkedOne(cx: Ctx, arena: Arena, infos: seq<Info>, arena': Arena, infos': seq<Info>, st: Stack,
                      pi: seq<bool>, bits: nat, t: nat)
    requires Chain(cx, infos, st) && st.h >= 0
    requires Pushes(cx, arena, infos, arena', infos', st.u[st.h], pi, bits) && Shape(cx, arena', infos')
    requires 0 < t < |infos| && Linked(cx, arena, infos, t) && Finished(infos, st, Lo(BMAX, pi))
    ensures Linked(cx, arena', infos', t)
  {
    if infos[t].parent == st.u[st.h] {
      LinkSlotIsFree(cx, arena, infos, st, pi, t);
    }
    LinkKept(cx, arena, infos, arena', infos', st.u[st.h], pi, bits, t);
  }

  lemma LinkKept(cx: Ctx, arena: Arena, infos: seq<Info>, arena': Arena, infos': seq<Info>, parent: nat, pi: seq<bool>,
                 bits: nat, t: nat)
    requires Pushes(cx, arena, infos, arena', infos', parent, pi, bits) && Shape(cx, arena', infos')
    requires 0 < t < |infos| && Linked(cx, arena, infos, t)
    requires infos[t].parent == parent ==>
      |infos[t].prefix| == |pi| && Lsb(infos[t].prefix[|pi| - cx.l..]) != Lsb(pi[|pi| - cx.l..])
    ensures Linked(cx, arena', infos', t)
  {
  }

  lemma NewLink(cx: Ctx, arena: Arena, infos: seq<Info>, arena': Arena, infos': seq<Info>, parent: nat, pi: seq<bool>,
                bits: nat)
    requires Pushes(cx, arena, infos, arena', infos', parent, pi, bits) && Shape(cx, arena', infos') && |infos| > 0
    ensures Linked(cx, arena', infos', |infos|)
  {
  }

  // ------------------------------------------------------------------
  // Filling the slots of one code and moving past it

  ghost predicate CodeEntry(cx: Ctx, w: nat, cs: seq<bool>, r: Huft)
    requires MeaningFor(cx.m, |cx.lens|) && w <= |cs|
  {
    exists sym :: Used(cx.lens, sym) && Code(cx.lens, sym) == cs && r == SymEntry(cx.m, sym, |cs| - w)
  }

  /** What the slots of the current code, `cs`, are filled with. */
  ghost predicate GoodEntry(cx: Ctx, w: nat, cs: seq<bool>, r: Huft) {
    && w < |cs| <= w + cx.l && |cs| <= BMAX
    && MeaningFor(cx.m, |cx.lens|)
    && (CodeEntry(cx, w, cs, r)
        || (((r.Unset? && !AllUsed(cx.lens)) || (r.Entry? && r.e == 99))
            && Kraft(cx.lens) <= Lo(BMAX, cs) && |cs| == cx.g))
  }

  ghost predicate Filled(f: Info, cs: seq<bool>, r: Huft, q: seq<Huft>, q': seq<Huft>) {
    && |q'| == |q|
    && forall idx :: 0 <= idx < |q| ==> q'[idx] == if cs <= Slot(f, idx) then r else q[idx]
  }

  lemma FilledSlot(cx: Ctx, arena: Arena, infos: seq<Info>, t: nat, idx: nat, cs: seq<bool>)
    requires Shape(cx, arena, infos) && CtxOK(cx) && t < |arena| && idx < |arena[t]|
    requires cs <= Slot(infos[t], idx)
    requires GoodEntry(cx, |infos[t].prefix|, cs, arena[t][idx])
    ensures SlotDone(cx, arena, infos, t, idx)
  {
    var w, s, r := |infos[t].prefix|, Slot(infos[t], idx), arena[t][idx];
    PrefixIffInside(BMAX, cs, s);
    if CodeEntry(cx, w, cs, r) {
      var sym :| Used(cx.lens, sym) && Code(cx.lens, sym) == cs && r == SymEntry(cx.m, sym, |cs| - w);
      assert LeafFor(cx, w, s, r, sym);
    } else {
      assert Dead(cx, w, s);
    }
  }

  /** A slot that extends `pi` agrees with it on the low index bits. */
  lemma IndexOfPrefix(f: Info, idx: nat, pi: seq<bool>, l: nat)
    requires idx < Pow2(f.bits) && l <= f.bits
    requires |pi| == |f.prefix| + l && pi <= Slot(f, idx)
    ensures Lsb(pi[|f.prefix|..]) == idx % Pow2(l)
    ensures f.bits == l || idx < Pow2(l) ==> idx == Lsb(pi[|f.prefix|..])
  {
    LsbBitsPrefix(idx, f.bits, l);
    assert pi[|f.prefix|..] == LsbBits(idx, f.bits)[..l];
    DivModUnique(idx % Pow2(l), Pow2(l), 0, idx % Pow2(l));
    if idx < Pow2(l) {
      DivModUnique(idx, Pow2(l), 0, idx);
    }
  }

  /** A slot of a linked table's parent that extends the table's prefix holds the link, or is a hole. */
  lemma AncestorSlot(cx: Ctx, arena: Arena, infos: seq<Info>, c: nat, idx: nat, p: nat)
    requires Shape(cx, arena, infos) && 0 < c < |infos| && Linked(cx, arena, infos, c) && cx.l >= 1
    requires HolesUnset(cx, arena, infos, p)
    requires idx < |arena[infos[c].parent]|
    requires infos[c].prefix <= Slot(infos[infos[c].parent], idx)
    requires p <= Lo(BMAX, Slot(infos[infos[c].parent], idx))
    ensures SlotDone(cx, arena, infos, infos[c].parent, idx)
  {
    var t, pi := infos[c].parent, infos[c].prefix;
    IndexOfPrefix(infos[t], idx, pi, cx.l);
    if MissingLink(cx, arena, infos, t, idx) {
      assert arena[t][idx] == Unset;
    } else {
      assert idx == Lsb(pi[|infos[t].prefix|..]);
      assert arena[t][idx] == Link(16 + infos[c].bits, cx.l, c);
    }
  }

  /** Slots of tables other than the top one that begin inside the current code are links or holes. */
  lemma OtherSlot(cx: Ctx, arena: Arena, infos: seq<Info>, st: Stack, cs: seq<bool>, t: nat, idx: nat)
    requires Shape(cx, arena, infos) && Chain(cx, infos, st) && st.h >= 0 && cx.l >= 1
    requires |cs| <= BMAX && Finished(infos, st, Lo(BMAX, cs))
    requires AllLinked(cx, arena, infos) && HolesUnset(cx, arena, infos, Lo(BMAX, cs))
    requires infos[st.u[st.h]].prefix <= cs
    requires t < |arena| && t != st.u[st.h] && idx < |arena[t]|
    requires Lo(BMAX, cs) <= Lo(BMAX, Slot(infos[t], idx)) < Hi(BMAX, cs)
    ensures SlotDone(cx, arena, infos, t, idx)
  {
    hide Lo, Hi, Slot, DoneBefore, SlotDone, MissingLink, Lsb, Pow2;
    var s := Slot(infos[t], idx);
    SlotBelow(infos[t], idx);
    assert OnStack(st, t);
    var a :| 0 <= a <= st.h && st.u[a] == t;
    var c := st.u[a + 1];
    var pi := infos[c].prefix;
    assert Rung(cx, infos, st, a + 1);
    assert pi <= infos[st.u[st.h]].prefix;
    assert Linked(cx, arena, infos, c);
    PrefixIffInside(BMAX, pi, cs);
    PrefixIffInside(BMAX, pi, s);
    AncestorSlot(cx, arena, infos, c, idx, Lo(BMAX, cs));
  }

  lemma SameSlot(cx: Ctx, arena: Arena, arena': Arena, infos: seq<Info>, t: nat, idx: nat)
    requires Shape(cx, arena, infos) && Shape(cx, arena', infos)
    requires t < |arena| && idx < |arena[t]| && SlotDone(cx, arena, infos, t, idx)
    requires arena'[t][idx] == arena[t][idx]
    ensures SlotDone(cx, arena', infos, t, idx)
  {
  }

  /** The current code `cs` begins at position Lo(cs) and its slots, all in the top table, get entry `r`. */
  ghost predicate Fills(cx: Ctx, arena: Arena, arena': Arena, infos: seq<Info>, st: Stack, cs: seq<bool>, r: Huft) {
    && Shape(cx, arena, infos) && Chain(cx, infos, st) && st.h >= 0 && cx.l >= 1
    && var top := st.u[st.h];
    && var f := infos[top];
    && f.prefix <= cs && |f.prefix| < |cs| <= |f.prefix| + f.bits
    && |arena'| == |arena|
    && (forall t :: 0 <= t < |arena| && t != top ==> arena'[t] == arena[t])
    && Filled(f, cs, r, arena[top], arena'[top])
  }

  lemma AdvanceDone(cx: Ctx, arena: Arena, arena': Arena, infos: seq<Info>, st: Stack, cs: seq<bool>, r: Huft)
    requires Fills(cx, arena, arena', infos, st, cs, r) && CtxOK(cx)
    requires GoodEntry(cx, |infos[st.u[st.h]].prefix|, cs, r)
    requires Finished(infos, st, Lo(BMAX, cs)) && AllLinked(cx, arena, infos)
    requires DoneBefore(cx, arena, infos, Lo(BMAX, cs)) && HolesUnset(cx, arena, infos, Lo(BMAX, cs))
    ensures Shape(cx, arena', infos) && DoneBefore(cx, arena', infos, Hi(BMAX, cs))
  {
    hide SlotDone, Slot, Lo, Hi, Finished, AllLinked, HolesUnset, Chain, CodeEntry, CtxOK;
    FillsShape(cx, arena, arena', infos, st, cs, r);
    forall t, idx | 0 <= t < |arena'| && 0 <= idx < |arena'[t]| && Lo(BMAX, Slot(infos[t], idx)) < Hi(BMAX, cs)
      ensures SlotDone(cx, arena', infos, t, idx)
    {
      AdvanceSlot(cx, arena, arena', infos, st, cs, r, t, idx);
    }
  }

  lemma FillsShape(cx: Ctx, arena: Arena, arena': Arena, infos: seq<Info>, st: Stack, cs: seq<bool>, r: Huft)
    requires Fills(cx, arena, arena', infos, st, cs, r)
    ensures Shape(cx, arena', infos)
  {
    hide Chain, Slot;
  }

  lemma AdvanceSlot(cx: Ctx, arena: Arena, arena': Arena, infos: seq<Info>, st: Stack, cs: seq<bool>, r: Huft,
                    t: nat, idx: nat)
    requires Fills(cx, arena, arena', infos, st, cs, r) && CtxOK(cx) && Shape(cx, arena', infos)
    requires GoodEntry(cx, |infos[st.u[st.h]].prefix|, cs, r)
    requires Finished(infos, st, Lo(BMAX, cs)) && AllLinked(cx, arena, infos)
    requires DoneBefore(cx, arena, infos, Lo(BMAX, cs)) && HolesUnset(cx, arena, infos, Lo(BMAX, cs))
    requires t < |arena'| && idx < |arena'[t]| && Lo(BMAX, Slot(infos[t], idx)) < Hi(BMAX, cs)
    ensures SlotDone(cx, arena', infos, t, idx)
  {
    hide SlotDone, Slot, Lo, Hi, Finished, AllLinked, HolesUnset, CodeEntry, Rung;
    SlotLength(cx, arena, infos, t, idx);
    var top, s := st.u[st.h], Slot(infos[t], idx);
    if t == top && cs <= s {
      FilledSlot(cx, arena', infos, t, idx, cs);
    } else {
      if Lo(BMAX, cs) <= Lo(BMAX, s) {
        if t == top {
          PrefixIffInside(BMAX, cs, s);
        } else {
          OtherSlot(cx, arena, infos, st, cs, t, idx);
        }
      }
      SameSlot(cx, arena, arena', infos, t, idx);
    }
  }

  lemma SlotLength(cx: Ctx, arena: Arena, infos: seq<Info>, t: nat, idx: nat)
    requires Shape(cx, arena, infos) && t < |arena| && idx < |arena[t]|
    ensures |Slot(infos[t], idx)| == |infos[t].prefix| + infos[t].bits <= BMAX
  {
  }

  /** The slot that links a table is not among those the current code fills. */
  lemma LinkSurvives(cx: Ctx, arena: Arena, infos: seq<Info>, t: nat, cs: seq<bool>)
    requires Shape(cx, arena, infos) && 0 < t < |infos| && Linked(cx, arena, infos, t) && cx.l >= 1
    requires |cs| <= |infos[t].prefix| && Hi(BMAX, infos[t].prefix) <= Lo(BMAX, cs)
    ensures var f := infos[infos[t].parent];
      !(cs <= Slot(f, Lsb(infos[t].prefix[|infos[t].prefix| - cx.l..])))
  {
    var f, pi := infos[infos[t].parent], infos[t].prefix;
    assert |pi| - cx.l == |f.prefix|;
    LinkSlot(cx, f, pi);
    if cs <= Slot(f, Lsb(pi[|f.prefix|..])) {
      ShorterPrefix(cs, Slot(f, Lsb(pi[|f.prefix|..])), pi);
      InsideIsLater(cs, pi);
    }
  }

  lemma ShorterPrefix(a: seq<bool>, s: seq<bool>, b: seq<bool>)
    requires a <= s && |a| <= |b| <= |s| && s[..|b|] == b
    ensures a <= b
  {
    assert a == s[..|b|][..|a|];
  }

  lemma InsideIsLater(a: seq<bool>, b: seq<bool>)
    requires a <= b && |b| <= BMAX
    ensures Lo(BMAX, a) < Hi(BMAX, b)
  {
    PrefixIffInside(BMAX, a, b);
    HiBound(BMAX, b);
  }

  lemma AdvanceLinked(cx: Ctx, arena: Arena, arena': Arena, infos: seq<Info>, st: Stack, cs: seq<bool>, r: Huft)
    requires Fills(cx, arena, arena', infos, st, cs, r)
    requires |cs| <= |infos[st.u[st.h]].prefix| + cx.l
    requires Finished(infos, st, Lo(BMAX, cs)) && AllLinked(cx, arena, infos)
    ensures Shape(cx, arena', infos) && AllLinked(cx, arena', infos)
  {
    var top := st.u[st.h];
    forall t | 0 < t < |infos|
      ensures Linked(cx, arena', infos, t)
    {
      assert Linked(cx, arena, infos, t);
      if infos[t].parent == top {
        ChildIsOff(cx, infos, st, t);
        LinkSurvives(cx, arena, infos, t, cs);
      }
    }
  }

  lemma AdvanceHoles(cx: Ctx, arena: Arena, arena': Arena, infos: seq<Info>, st: Stack, cs: seq<bool>, r: Huft)
    requires Fills(cx, arena, arena', infos, st, cs, r)
    requires HolesUnset(cx, arena, infos, Lo(BMAX, cs))
    ensures Shape(cx, arena', infos) && HolesUnset(cx, arena', infos, Hi(BMAX, cs))
  {
    var top := st.u[st.h];
    forall t, idx | 0 <= t < |arena'| && 0 <= idx < |arena'[t]| && MissingLink(cx, arena', infos, t, idx)
      && Hi(BMAX, cs) <= Lo(BMAX, Slot(infos[t], idx))
      ensures arena'[t][idx] == Unset
    {
      assert MissingLink(cx, arena, infos, t, idx);
      if t == top {
        PrefixIffInside(BMAX, cs, Slot(infos[top], idx));
      }
    }
  }
}

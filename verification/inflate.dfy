/**
 inflate (boot/zBoot/inflate.c, with flush_window of boot/zBoot/misc.c), proved against
 the reference decoder of module Deflate. The fields are the C globals; each method
 works on its own copies of the bit buffer and window position and hands them back.
 */
module Inflate {
  import opened Basics
  import opened Bits
  import opened Huffman
  import opened HuftTables
  import opened HuftLayout
  import opened HuftDecode
  import opened HuftBuild
  import opened HuftWide
  import opened Deflate
  import opened BitBuffer
  import opened Window
  import opened FixedCodes
  import Crc32

  /**
   How a call ends. Bad is a non-zero return value; OutOfInput and ErrorStop are the two
   ways to reach error(), which halts; Undefined is a read of memory nobody wrote.
   */
  datatype Outcome = Ok | Bad(code: nat) | OutOfInput | ErrorStop | Undefined {
    predicate IsFailure() { !Ok? }
    function PropagateFailure(): Outcome { this }
  }

  /** Failing is justified: the reference fails too, or fewer than two bytes were left over. */
  ghost predicate Justified<T>(o: Outcome, r: Ref<T>) {
    && !o.Ok?
    && (r.Stuck? || (o.OutOfInput? && |r.rest| < 16))
  }

  const LITERALS: Meaning := Meaning(257, LENGTH_BASE, LENGTH_EXTRA)
  const DISTANCES: Meaning := Meaning(0, DISTANCE_BASE, DISTANCE_EXTRA)
  const CODE_LENGTHS: Meaning := Meaning(19, [], [])

  class Inflater {
    const input: seq<byte>
    var inptr: nat
    var bb: nat
    var bk: nat
    const window: array<byte>
    var outcnt: nat
    var output: seq<byte>
    const register: Crc32.ShiftRegister

    /** The output written so far is covered by the CRC register, in whole windows. */
    ghost predicate Valid()
      reads this, window, register, register.table
    {
      && window.Length == WSIZE && inptr <= |input|
      && register.Valid() && register.crc == Crc32.Register(output)
    }

    ghost predicate Writes(w: nat, out: seq<byte>)
      reads this, window, register, register.table
    {
      Valid() && w < WSIZE && WholeWindows(output) && Holds(window[..], w, output, out)
    }

    /** The globals before inflate is called: the window is zeroed memory. */
    constructor (bytes: seq<byte>)
      ensures Valid() && input == bytes && inptr == 0 && output == []
      ensures fresh(window) && fresh(register) && fresh(register.table)
      ensures forall i :: 0 <= i < WSIZE ==> window[i] == 0
    {
      input, inptr, bb, bk, outcnt, output := bytes, 0, 0, 0, 0, [];
      window := new byte[WSIZE](_ => 0);
      register := new Crc32.ShiftRegister();
    }

    // ----------------------------------------------------------------
    // The bit buffer

    /** Reads bytes into the buffer until it holds n bits. */
    method NeedBits(n: nat, b0: nat, k0: nat, ghost rest: seq<bool>) returns (o: Outcome, b: nat, k: nat)
      requires Synced(input, inptr, b0, k0, rest) && n <= BMAX
      modifies this`inptr
      ensures inptr <= |input|
      ensures o.Ok? ==> Synced(input, inptr, b, k, rest) && n <= k && (k == k0 || k < n + 8)
      ensures !o.Ok? ==> o == OutOfInput && |rest| < n
    {
      hide Synced, Pow2, Raised;
      b, k := b0, k0;
      SyncedBound(input, inptr, b, k, rest);
      while k < n
        invariant Synced(input, inptr, b, k, rest) && (k == k0 || k < n + 8)
        invariant |rest| == k + 8 * (|input| - inptr) && inptr <= |input|
        decreases n + 8 - k
      {
        if inptr >= |input| {
          return OutOfInput, b, k;
        }
        TakeByte(input, inptr, b, k, rest);
        b, k, inptr := b + Raised(input[inptr], k), k + 8, inptr + 1;
        SyncedBound(input, inptr, b, k, rest);
      }
      o := Ok;
    }

    /** Takes an n-bit number off the input. */
    method GetBits(n: nat, b0: nat, k0: nat, ghost rest: seq<bool>)
      returns (o: Outcome, x: nat, b: nat, k: nat, ghost rest': seq<bool>)
      requires Synced(input, inptr, b0, k0, rest) && n <= BMAX
      modifies this`inptr
      ensures inptr <= |input|
      ensures o.Ok? ==> RefNum(rest, n) == Done(x, rest') && Synced(input, inptr, b, k, rest')
      ensures !o.Ok? ==> o == OutOfInput && RefNum(rest, n).Stuck?
    {
      x, rest' := 0, rest;
      o, b, k := NeedBits(n, b0, k0, rest);
      if o.Ok? {
        Peek(input, inptr, b, k, rest, n);
        Dump(input, inptr, b, k, rest, n);
        x := b % Pow2(n);
        b, k, rest' := b / Pow2(n), k - n, rest[n..];
      }
    }

    // ----------------------------------------------------------------
    // The output window

    /** flush_output(w) and flush_window(). */
    method FlushOutput(w: nat, ghost out: seq<byte>)
      requires Valid() && w <= WSIZE && Holds(window[..], w, output, out)
      modifies this`outcnt, this`output, register`crc
      ensures Valid() && output == out && outcnt == 0
      ensures w == WSIZE ==> Writes(0, out)
    {
      outcnt := w;
      if outcnt != 0 {
        var s := window[..outcnt];
        var r := register.Update(s);
        Crc32.RegisterOfPieces(output, s);
        if w == WSIZE {
          Flush(window[..], output, out);
          assert window[..w] == window[..];
        }
        output := output + s;
        outcnt := 0;
      }
    }

    /** Puts one byte into the window, and flushes the window when it is full. */
    method PutByte(x: byte, w0: nat, ghost out: seq<byte>) returns (w: nat)
      requires Writes(w0, out)
      modifies window, this`outcnt, this`output, register`crc
      ensures Writes(w, out + [x])
    {
      WriteByte(window[..], w0, output, out, x);
      window[w0] := x;
      assert window[..] == old(window[..])[w0 := x];
      w := FlushIfFull(w0 + 1, out + [x]);
    }

    method FlushIfFull(w0: nat, ghost out: seq<byte>) returns (w: nat)
      requires Valid() && w0 <= WSIZE && WholeWindows(output) && Holds(window[..], w0, output, out)
      modifies this`outcnt, this`output, register`crc
      ensures Writes(w, out) && w == (if w0 == WSIZE then 0 else w0)
    {
      w := w0;
      if w == WSIZE {
        FlushOutput(w, out);
        w := 0;
      }
    }

    /** Window index of the byte `dist` back. */
    static function Source(w: nat, dist: nat): nat
      requires w < WSIZE && 1 <= dist <= WSIZE
    {
      if dist <= w then w - dist else w + WSIZE - dist
    }

    /** Copies byte by byte, so that bytes just written are read again. */
    method CopySlow(w0: nat, d0: nat, e: nat, ghost dist: nat, ghost out: seq<byte>) returns (w: nat, d: nat)
      requires Writes(w0, out) && 1 <= dist <= WSIZE && d0 == Source(w0, dist)
      requires e >= 1 && w0 + e <= WSIZE && d0 + e <= WSIZE
      modifies window
      ensures Valid() && w == w0 + e && d == d0 + e && Holds(window[..], w, output, Copy(out, dist, e))
    {
      w, d := w0, d0;
      var left := e;
      while left > 0
        invariant 0 <= left <= e && w == w0 + e - left && d == d0 + e - left
        invariant Valid() && Holds(window[..], w, output, Copy(out, dist, e - left))
      {
        CopyByte(window[..], w, output, Copy(out, dist, e - left), dist, d);
        CopyLast(out, dist, e - left);
        ghost var before := window[..];
        window[w] := window[d];
        assert window[..] == before[w := before[d]];
        w, d, left := w + 1, d + 1, left - 1;
      }
    }

    /** One chunk of a copy: as much as fits before the end of the window on either side. */
    method CopyChunk(w0: nat, d0: nat, e: nat, ghost dist: nat, ghost out: seq<byte>) returns (w: nat, d: nat)
      requires Writes(w0, out) && 1 <= dist <= WSIZE && d0 == Source(w0, dist)
      requires e >= 1 && w0 + e <= WSIZE && d0 + e <= WSIZE
      modifies window
      ensures Valid() && w == w0 + e && d == d0 + e && Holds(window[..], w, output, Copy(out, dist, e))
    {
      if w0 < d0 || w0 - d0 >= e {
        ghost var before := window[..];
        Memcpy(window, w0, d0, e);
        CopyBlock(before, window[..], w0, output, out, dist, d0, e);
        w, d := w0 + e, d0 + e;
      } else {
        w, d := CopySlow(w0, d0, e, dist, out);
      }
    }

    /** The copy of one length/distance pair, in chunks. */
    method CopyBytes(n0: nat, dist: nat, w0: nat, ghost out: seq<byte>) returns (w: nat)
      requires Writes(w0, out) && 1 <= dist <= WSIZE && n0 >= 1
      modifies window, this`outcnt, this`output, register`crc
      ensures Writes(w, Copy(out, dist, n0))
    {
      hide Holds, Copy, WholeWindows;
      CopyNone(out, dist);
      w := w0;
      var n := n0;
      var d: int := w0 - dist;
      WrapIs(d, w, dist);
      while n > 0
        invariant 0 <= n <= n0 && Writes(w, Copy(out, dist, n0 - n))
        invariant d % WSIZE == Source(w, dist)
      {
        ghost var done := n0 - n;
        d := d % WSIZE;
        var e := WSIZE - (if d > w then d else w);
        e := if e > n then n else e;
        n := n - e;
        w, d := CopyChunk(w, d, e, dist, Copy(out, dist, done));
        CopyInTwo(out, dist, done, e);
        w := FlushIfFull(w, Copy(out, dist, n0 - n));
        WrapIs(d, w, dist);
      }
    }

    // ----------------------------------------------------------------
    // Symbols

    /**
     Look up the next symbol: index the root with bl bits, follow links, drop the bits of
     the code. Returns the operation and value of the table entry.
     */
    method DecodeSymbol(arena: Arena, bl: nat, b0: nat, k0: nat, ghost cx: Ctx, ghost infos: seq<HuftTables.Info>,
                        ghost start: seq<bool>)
      returns (o: Outcome, e: nat, v: nat, b: nat, k: nat, ghost sym: nat, ghost rest: seq<bool>)
      requires Synced(input, inptr, b0, k0, start) && Ready(arena, bl, cx, infos) && MeaningFor(cx.m, |cx.lens|)
      modifies this`inptr
      ensures inptr <= |input|
      ensures o.Ok? ==> Synced(input, inptr, b, k, rest) && RefSym(cx.lens, start) == Done(sym, rest)
      ensures o.Ok? ==> e != 99 && SymEntry(cx.m, sym, 0) == Entry(e, 0, v)
      ensures o == Bad(1) ==> RefSym(cx.lens, start).Stuck? || SymEntry(cx.m, RefSym(cx.lens, start).value, 0).e == 99
      ensures !o.Ok? ==>
        || o == Bad(1) || (o.Undefined? && RefSym(cx.lens, start).Stuck?)
        || (o.OutOfInput? && Justified(o, RefSym(cx.lens, start)))
    {
      hide Built, NoWideSubtable, Ready, Synced, AtTable, RefSym, SymEntry, Lsb, Pow2, MeaningFor, SlotSays;
      e, v, b, k, sym, rest := 0, 0, b0, k0, 0, start;
      SyncedBound(input, inptr, b0, k0, start);
      StartLookup(arena, bl, cx, infos, start);
      if |arena| == 0 {
        return Undefined, e, v, b, k, sym, rest;
      }
      var h;
      o, h, b, k, rest := FollowLinks(arena, bl, b, k, cx, infos, start);
      if !o.Ok? {
        return;
      }
      SlotSaysWhat(cx, h, start, rest);
      match h {
        case Unset =>
          o := Undefined;
        case Entry(op, drop, n) =>
          if op == 99 {
            o := Bad(1);
          } else {
            Dump(input, inptr, b, k, rest, drop);
            b, k, rest := b / Pow2(drop), k - drop, rest[drop..];
            e, v, sym := op, n, RefSym(cx.lens, start).value;
          }
      }
    }

    /** From the root table on, follow links to the first slot that is none; its bits are not yet dropped. */
    method FollowLinks(arena: Arena, bl: nat, b0: nat, k0: nat, ghost cx: Ctx, ghost infos: seq<HuftTables.Info>,
                       ghost start: seq<bool>)
      returns (o: Outcome, h: Huft, b: nat, k: nat, ghost rest: seq<bool>)
      requires Synced(input, inptr, b0, k0, start) && Built(cx, arena, infos) && NoWideSubtable(cx, infos)
      requires |infos| > 0 && AtTable(cx, infos, 0, bl, start, start) && MeaningFor(cx.m, |cx.lens|)
      modifies this`inptr
      ensures inptr <= |input|
      ensures o.Ok? ==> Synced(input, inptr, b, k, rest) && !h.Link? && SlotSays(cx, h, start, rest)
      ensures o.Ok? && h.Entry? && h.e != 99 ==> h.b <= k
      ensures !o.Ok? ==> o.OutOfInput? && Justified(o, RefSym(cx.lens, start))
    {
      hide Built, NoWideSubtable, Synced, AtTable, RefSym, SymEntry, Lsb, Pow2, MeaningFor, SlotSays;
      h, b, k, rest := Unset, b0, k0, start;
      SyncedBound(input, inptr, b0, k0, start);
      var t: nat, nb: nat := 0, bl;
      while true
        invariant inptr <= |input| && Synced(input, inptr, b, k, rest) && AtTable(cx, infos, t, nb, start, rest)
        invariant t < |infos|
        decreases |infos| - t
      {
        IndexFits(cx, infos, t, nb, start, rest);
        o, b, k := NeedBits(nb, b, k, rest);
        if !o.Ok? {
          EndOfInput(cx, arena, infos, t, nb, start, rest);
          return;
        }
        SyncedBound(input, inptr, b, k, rest);
        Peek(input, inptr, b, k, rest, nb);
        LookupAt(cx, arena, infos, t, nb, start, rest);
        h := arena[t][b % Pow2(nb)];
        if !h.Link? {
          return;
        }
        Dump(input, inptr, b, k, rest, h.b);
        b, k, rest := b / Pow2(h.b), k - h.b, rest[h.b..];
        t, nb := h.t, h.e - 16;
      }
    }

    /** A distance symbol and its extra bits. */
    method GetDistance(td: Arena, bd: nat, b0: nat, k0: nat, ghost dcx: Ctx, ghost dinfos: seq<HuftTables.Info>,
                       ghost start: seq<bool>)
      returns (o: Outcome, dist: nat, b: nat, k: nat, ghost rest: seq<bool>)
      requires Synced(input, inptr, b0, k0, start) && Ready(td, bd, dcx, dinfos)
      requires dcx.m == DISTANCES && |dcx.lens| <= 30
      modifies this`inptr
      ensures inptr <= |input|
      ensures o.Ok? ==> RefDistance(dcx.lens, start) == Done(dist, rest) && Synced(input, inptr, b, k, rest)
      ensures !o.Ok? ==> Justified(o, RefDistance(dcx.lens, start))
    {
      hide Ready, Synced, SymEntry, RefSym, RefNum, RefBack, Pow2;
      var e, v, x;
      ghost var ds;
      dist := 0;
      DistanceEntries();
      SymbolBelow(dcx.lens, start);
      o, e, v, b, k, ds, rest := DecodeSymbol(td, bd, b0, k0, dcx, dinfos, start);
      if o.Ok? {
        BackIs(ds, e, v, rest);
        o, x, b, k, rest := GetBits(e, b, k, rest);
        dist := v + x;
      }
    }

    /** The extra bits and distance of a copy whose length entry is (e, v). */
    method GetCopy(e: nat, v: nat, td: Arena, bd: nat, b0: nat, k0: nat, ghost sym: nat,
                   ghost dcx: Ctx, ghost dinfos: seq<HuftTables.Info>, ghost start: seq<bool>)
      returns (o: Outcome, n: nat, dist: nat, b: nat, k: nat, ghost rest: seq<bool>)
      requires Synced(input, inptr, b0, k0, start) && Ready(td, bd, dcx, dinfos)
      requires dcx.m == DISTANCES && |dcx.lens| <= 30
      requires 257 <= sym < 286 && e == LENGTH_EXTRA[sym - 257] && v == LENGTH_BASE[sym - 257]
      modifies this`inptr
      ensures inptr <= |input|
      ensures o.Ok? ==> RefCopy(sym, dcx.lens, start) == Done((n, dist), rest) && Synced(input, inptr, b, k, rest)
      ensures !o.Ok? ==> Justified(o, RefCopy(sym, dcx.lens, start))
    {
      hide Ready, Synced, RefDistance;
      var x;
      n, dist := 0, 0;
      o, x, b, k, rest := GetBits(e, b0, k0, start);
      if o.Ok? {
        n := v + x;
        o, dist, b, k, rest := GetDistance(td, bd, b, k, dcx, dinfos, rest);
      }
    }

    /** Decode and output symbols until the end of the block. */
    method InflateCodes(tl: Arena, td: Arena, bl: nat, bd: nat, ghost lcx: Ctx, ghost linfos: seq<HuftTables.Info>,
                        ghost dcx: Ctx, ghost dinfos: seq<HuftTables.Info>, ghost rest0: seq<bool>,
                        ghost out0: seq<byte>)
      returns (o: Outcome, ghost rest: seq<bool>, ghost out: seq<byte>)
      requires Writes(outcnt, out0) && Synced(input, inptr, bb, bk, rest0)
      requires Ready(tl, bl, lcx, linfos) && lcx.m == LITERALS && |lcx.lens| <= 288
      requires Ready(td, bd, dcx, dinfos) && dcx.m == DISTANCES && |dcx.lens| <= 30
      modifies this`inptr, this`bb, this`bk, this`outcnt, this`output, window, register`crc
      ensures Valid()
      ensures o.Ok? ==> RefCodes(lcx.lens, dcx.lens, rest0, out0) == Done(out, rest)
      ensures o.Ok? ==> Synced(input, inptr, bb, bk, rest) && Writes(outcnt, out)
      ensures !o.Ok? ==> Justified(o, RefCodes(lcx.lens, dcx.lens, rest0, out0))
    {
      hide Ready, Synced, Holds, SymEntry, RefSym, RefCopy, Copy, WholeWindows;
      var b, k, w := bb, bk, outcnt;
      rest, out := rest0, out0;
      while true
        invariant Writes(w, out) && Synced(input, inptr, b, k, rest)
        invariant RefCodes(lcx.lens, dcx.lens, rest0, out0) == RefCodes(lcx.lens, dcx.lens, rest, out)
        decreases |rest|
      {
        var e, v;
        ghost var sym, rest1;
        o, e, v, b, k, sym, rest1 := DecodeSymbol(tl, bl, b, k, lcx, linfos, rest);
        LiteralEntries();
        if !o.Ok? {
          return;
        }
        if e == 16 {
          w := PutByte(v as byte, w, out);
          rest, out := rest1, out + [v as byte];
        } else if e == 15 {
          rest := rest1;
          break;
        } else {
          var n, dist;
          ghost var rest2;
          o, n, dist, b, k, rest2 := GetCopy(e, v, td, bd, b, k, sym, dcx, dinfos, rest1);
          if !o.Ok? {
            return;
          }
          w := CopyBytes(n, dist, w, out);
          rest, out := rest2, Copy(out, dist, n);
        }
      }
      outcnt, bb, bk := w, b, k;
      o := Ok;
    }

    // ----------------------------------------------------------------
    // Blocks

    /** Go to a byte boundary. */
    method ByteBoundary(b0: nat, k0: nat, ghost rest0: seq<bool>) returns (b: nat, k: nat)
      requires Synced(input, inptr, b0, k0, rest0)
      ensures Synced(input, inptr, b, k, Align(rest0))
    {
      hide Synced, Pow2;
      var n := k0 % 8;
      SyncedBound(input, inptr, b0, k0, rest0);
      SameRemainder(|rest0|, k0, |input| - inptr);
      Dump(input, inptr, b0, k0, rest0, n);
      b, k := b0 / Pow2(n), k0 - n;
    }

    /** Go to a byte boundary and check the length against its complement. */
    method StoredLength(b0: nat, k0: nat, ghost rest0: seq<bool>, ghost out: seq<byte>)
      returns (o: Outcome, n: nat, b: nat, k: nat, ghost rest: seq<bool>)
      requires Synced(input, inptr, b0, k0, rest0)
      modifies this`inptr
      ensures inptr <= |input|
      ensures o.Ok? ==> RefStored(rest0, out) == RefBytes(n, rest, out) && Synced(input, inptr, b, k, rest)
      ensures !o.Ok? ==> Justified(o, RefStored(rest0, out))
    {
      hide Synced, Pow2, Lsb, RefBytes, Align;
      var x;
      n, rest := 0, Align(rest0);
      b, k := ByteBoundary(b0, k0, rest0);
      o, n, b, k, rest := GetBits(16, b, k, rest);
      if o.Ok? {
        o, x, b, k, rest := GetBits(16, b, k, rest);
        if o.Ok? && n + x != 65535 {
          o := Bad(1);
        }
      }
    }

    /** Check the length, copy the bytes. */
    method InflateStored(ghost rest0: seq<bool>, ghost out0: seq<byte>)
      returns (o: Outcome, ghost rest: seq<bool>, ghost out: seq<byte>)
      requires Writes(outcnt, out0) && Synced(input, inptr, bb, bk, rest0)
      modifies this`inptr, this`bb, this`bk, this`outcnt, this`output, window, register`crc
      ensures Valid()
      ensures o.Ok? ==> RefStored(rest0, out0) == Done(out, rest)
      ensures o.Ok? ==> Synced(input, inptr, bb, bk, rest) && Writes(outcnt, out)
      ensures !o.Ok? ==> Justified(o, RefStored(rest0, out0))
    {
      hide Synced, Holds, RefStored, Pow2, RefNum;
      var b, k, w := bb, bk, outcnt;
      var n, x;
      out := out0;
      o, n, b, k, rest := StoredLength(b, k, rest0, out0);
      if !o.Ok? {
        return;
      }
      while n > 0
        invariant Writes(w, out) && Synced(input, inptr, b, k, rest)
        invariant RefStored(rest0, out0) == RefBytes(n, rest, out)
      {
        ghost var rest1;
        o, x, b, k, rest1 := GetBits(8, b, k, rest);
        if !o.Ok? {
          return;
        }
        EightBits(rest, x);
        w := PutByte(x as byte, w, out);
        rest, out, n := rest1, out + [x as byte], n - 1;
      }
      outcnt, bb, bk := w, b, k;
      o := Ok;
    }

    /** A block with the fixed codes of section 3.2.6. */
    method InflateFixed(ghost rest0: seq<bool>, ghost out0: seq<byte>)
      returns (o: Outcome, ghost rest: seq<bool>, ghost out: seq<byte>)
      requires Writes(outcnt, out0) && Synced(input, inptr, bb, bk, rest0)
      modifies this`inptr, this`bb, this`bk, this`outcnt, this`output, window, register`crc
      ensures Valid()
      ensures o.Ok? ==> RefFixed(rest0, out0) == Done(out, rest)
      ensures o.Ok? ==> Synced(input, inptr, bb, bk, rest) && Writes(outcnt, out)
      ensures !o.Ok? ==> Justified(o, RefFixed(rest0, out0))
    {
      hide Synced, Writes, Complete, Oversubscribed, IsShortest, IsLongest, NoWideSubtable, Overflows, Built;
      rest, out := rest0, out0;
      FixedLiteralsComplete();
      FixedDistancesUsable();
      var l := FixedLiteralLengths();
      var i, tl, bl, lcx, linfos := Build(l, LITERALS, 7);
      if i != 0 {
        return Bad(i), rest, out;
      }
      FixedLiteralsReady(tl, bl, lcx, linfos);
      var td, bd;
      ghost var dcx, dinfos;
      i, td, bd, dcx, dinfos := Build(Repeat(5, 30), DISTANCES, 5);
      if i > 1 {
        return Bad(i), rest, out;
      }
      FixedDistancesReady(td, bd, dcx, dinfos);
      o, rest, out := InflateCodes(tl, td, bl, bd, lcx, linfos, dcx, dinfos, rest0, out0);
    }

    // ----------------------------------------------------------------
    // The header of a dynamic block

    /** The lengths of the code length code, in their own order; those not sent are zero. */
    method ReadOrder(ll: array<nat>, nb: nat, b0: nat, k0: nat, ghost rest0: seq<bool>)
      returns (o: Outcome, b: nat, k: nat, ghost rest: seq<bool>)
      requires nb <= 19 <= ll.Length && Synced(input, inptr, b0, k0, rest0)
      modifies this`inptr, ll
      ensures inptr <= |input|
      ensures o.Ok? ==>
        RefOrder(nb, 0, rest0, Repeat(0, 19)) == Done(ll[..19], rest) && Synced(input, inptr, b, k, rest)
      ensures o.Ok? ==> forall i :: 0 <= i < 19 ==> ll[i] < 8
      ensures !o.Ok? ==> Justified(o, RefOrder(nb, 0, rest0, Repeat(0, 19)))
    {
      SyncedBound(input, inptr, b0, k0, rest0);
      hide Synced, Pow2, Ordered, RefNum, RefOrder, Repeat, Order;
      b, k, rest := b0, k0, rest0;
      var j, x := 0, 0;
      ghost var lens := Repeat(0, 19);
      OrderedStart(ll[..19], lens);
      while j < nb
        invariant 0 <= j <= nb && inptr <= |input| && Synced(input, inptr, b, k, rest)
        invariant |lens| == 19 && RefOrder(nb, 0, rest0, Repeat(0, 19)) == RefOrder(nb, j, rest, lens)
        invariant Ordered(ll[..19], lens, j)
      {
        ghost var rest1;
        OrderStep(nb, j, rest, lens);
        o, x, b, k, rest1 := GetBits(3, b, k, rest);
        if !o.Ok? {
          return;
        }
        ThreeBits(rest, x);
        lens := StoreOrdered(ll, j, x, lens);
        rest, j := rest1, j + 1;
      }
      OrderStep(nb, nb, rest, lens);
      ZeroRest(ll, nb, lens);
      o := Ok;
    }

    /** One symbol of the code length code: a single lookup. */
    method LengthSymbol(tl: Arena, bl: nat, b0: nat, k0: nat, ghost cx: Ctx, ghost infos: seq<HuftTables.Info>,
                        ghost start: seq<bool>)
      returns (o: Outcome, j: nat, b: nat, k: nat, ghost rest: seq<bool>)
      requires Synced(input, inptr, b0, k0, start) && OneTable(tl, bl, cx, infos)
      modifies this`inptr
      ensures inptr <= |input|
      ensures o.Ok? ==> RefSym(cx.lens, start) == Done(j, rest) && Synced(input, inptr, b, k, rest)
      ensures !o.Ok? ==> Justified(o, RefSym(cx.lens, start))
    {
      hide Built, NoWideSubtable, Synced, SymEntry, RefSym, Lsb, Pow2;
      j, rest := 0, start;
      SyncedBound(input, inptr, b0, k0, start);
      RootFits(cx, tl, infos);
      o, b, k := NeedBits(bl, b0, k0, start);
      if !o.Ok? {
        LookupBeyond(tl, bl, cx, infos, start);
        return;
      }
      SyncedBound(input, inptr, b, k, start);
      Peek(input, inptr, b, k, start, bl);
      OneLookup(tl, bl, cx, infos, start);
      var td := tl[0][b % Pow2(bl)];
      if td.Unset? || td.e == 99 {
        return Undefined, j, b, k, rest;
      }
      Dump(input, inptr, b, k, start, td.b);
      b, k, j, rest := b / Pow2(td.b), k - td.b, td.n, start[td.b..];
    }

    /** How often, and which length, the symbols 16, 17 and 18 stand for. */
    method GetRun(j: nat, l: nat, b0: nat, k0: nat, ghost rest0: seq<bool>, ghost acc: seq<nat>)
      returns (o: Outcome, count: nat, length: nat, b: nat, k: nat, ghost rest: seq<bool>)
      requires 16 <= j < 19 && Synced(input, inptr, b0, k0, rest0)
      requires l == if acc == [] then 0 else acc[|acc| - 1]
      modifies this`inptr
      ensures inptr <= |input|
      ensures o.Ok? ==> RefRun(j, rest0, acc) == Done(Repeat(length, count), rest) && Synced(input, inptr, b, k, rest)
      ensures o.Ok? ==> count > 0 && (length == 0 || length == l)
      ensures !o.Ok? ==> Justified(o, RefRun(j, rest0, acc))
    {
      hide Synced, RefNum, Pow2;
      length := 0;
      if j == 16 {
        o, count, b, k, rest := GetBits(2, b0, k0, rest0);
        count, length := 3 + count, l;
      } else if j == 17 {
        o, count, b, k, rest := GetBits(3, b0, k0, rest0);
        count := 3 + count;
      } else {
        o, count, b, k, rest := GetBits(7, b0, k0, rest0);
        count := 11 + count;
      }
    }

    /** Store what one symbol stands for: a length, or a run of lengths. */
    method StoreSymbol(ll: array<nat>, n: nat, i0: nat, l0: nat, j: nat, b0: nat, k0: nat, ghost clens: seq<nat>,
                       ghost rest0: seq<bool>)
      returns (o: Outcome, i: nat, l: nat, b: nat, k: nat, ghost rest: seq<bool>)
      requires i0 < n <= ll.Length && Synced(input, inptr, b0, k0, rest0) && |clens| == 19 && j < 19
      requires InRange(ll[..i0]) && l0 == (if i0 == 0 then 0 else ll[i0 - 1]) && l0 <= BMAX
      modifies this`inptr, ll
      ensures inptr <= |input|
      ensures o.Ok? ==>
        i0 < i <= n && AfterSymbol(clens, n, j, rest0, old(ll[..i0])) == RefLengths(clens, n, rest, ll[..i])
      ensures o.Ok? ==> |rest| <= |rest0| && Synced(input, inptr, b, k, rest)
      ensures o.Ok? ==> InRange(ll[..i]) && l == ll[i - 1] && l <= BMAX
      ensures !o.Ok? ==> Justified(o, AfterSymbol(clens, n, j, rest0, old(ll[..i0])))
    {
      hide Synced, RefLengths, Repeat, InRange, RefRun;
      SyncedBound(input, inptr, b0, k0, rest0);
      i, l, b, k, rest := i0, l0, b0, k0, rest0;
      ghost var acc := ll[..i];
      if j < 16 {
        l, ll[i] := j, j;
        i := i + 1;
        assert ll[..i] == acc + [j];
        ShortRun(j, rest0, acc);
        InRangeNext(acc, j);
        o := Ok;
      } else {
        var count;
        o, count, l, b, k, rest := GetRun(j, l, b, k, rest0, acc);
        if o.Ok? {
          InRangeRepeat(acc, l, count);
          if i + count > n {
            TooMany(clens, n, rest, acc + Repeat(l, count));
            return Bad(1), i, l, b, k, rest;
          }
          FillRun(ll, i, count, l);
          i := i + count;
        }
      }
    }

    /** The literal and distance code lengths, compressed with the code length code. */
    method ReadLengths(ll: array<nat>, n: nat, tl: Arena, bl: nat, b0: nat, k0: nat,
                       ghost cx: Ctx, ghost infos: seq<HuftTables.Info>, ghost rest0: seq<bool>)
      returns (o: Outcome, b: nat, k: nat, ghost rest: seq<bool>)
      requires n <= ll.Length && Synced(input, inptr, b0, k0, rest0) && OneTable(tl, bl, cx, infos) && |cx.lens| == 19
      modifies this`inptr, ll
      ensures inptr <= |input|
      ensures o.Ok? ==> RefLengths(cx.lens, n, rest0, []) == Done(ll[..n], rest) && Synced(input, inptr, b, k, rest)
      ensures o.Ok? ==> InRange(ll[..n])
      ensures !o.Ok? ==> Justified(o, RefLengths(cx.lens, n, rest0, []))
    {
      SyncedBound(input, inptr, b0, k0, rest0);
      hide Synced, OneTable, RefSym, RefLengths, AfterSymbol;
      b, k, rest := b0, k0, rest0;
      var i, l := 0, 0;
      while i < n
        invariant 0 <= i <= n && inptr <= |input| && Synced(input, inptr, b, k, rest)
        invariant RefLengths(cx.lens, n, rest0, []) == RefLengths(cx.lens, n, rest, ll[..i])
        invariant InRange(ll[..i]) && l == (if i == 0 then 0 else ll[i - 1]) && 0 <= l <= BMAX
        decreases |rest|
      {
        ghost var rest1;
        var j;
        LengthsStep(cx.lens, n, rest, ll[..i]);
        o, j, b, k, rest1 := LengthSymbol(tl, bl, b, k, cx, infos, rest);
        if !o.Ok? {
          return;
        }
        o, i, l, b, k, rest := StoreSymbol(ll, n, i, l, j, b, k, cx.lens, rest1);
        if !o.Ok? {
          return;
        }
      }
      LengthsEnd(cx.lens, n, rest, ll[..n]);
      o := Ok;
    }

    /** nl, nd and nb; more than 286 or 30 codes are refused. */
    method GetCounts(b0: nat, k0: nat, ghost rest0: seq<bool>)
      returns (o: Outcome, nl: nat, nd: nat, nb: nat, b: nat, k: nat, ghost rest: seq<bool>)
      requires Synced(input, inptr, b0, k0, rest0)
      modifies this`inptr
      ensures inptr <= |input|
      ensures o.Ok? ==> RefCounts(rest0) == Done((nl, nd, nb), rest) && Synced(input, inptr, b, k, rest)
      ensures !o.Ok? ==> Justified(o, RefCounts(rest0))
    {
      hide Synced, RefNum;
      nd, nb := 0, 0;
      o, nl, b, k, rest := GetBits(5, b0, k0, rest0);
      if o.Ok? {
        o, nd, b, k, rest := GetBits(5, b, k, rest);
        if o.Ok? {
          o, nb, b, k, rest := GetBits(4, b, k, rest);
          nl, nd, nb := 257 + nl, 1 + nd, 4 + nb;
          if o.Ok? && (nl > 286 || nd > 30) {
            o := Bad(1);
          }
        }
      }
    }

    /** Build the code length code and read all code lengths with it. */
    method GetLengths(ll: array<nat>, n: nat, nb: nat, b0: nat, k0: nat, ghost rest0: seq<bool>)
      returns (o: Outcome, b: nat, k: nat, ghost rest: seq<bool>)
      requires 4 <= nb <= 19 < n <= ll.Length && Synced(input, inptr, b0, k0, rest0)
      modifies this`inptr, ll
      ensures inptr <= |input|
      ensures o.Ok? ==> RefAllLengths(n, nb, rest0) == Done(ll[..n], rest) && Synced(input, inptr, b, k, rest)
      ensures o.Ok? ==> InRange(ll[..n])
      ensures !o.Ok? ==> Justified(o, RefAllLengths(n, nb, rest0))
    {
      hide Synced, RefOrder, Complete, Oversubscribed, IsShortest, IsLongest, NoWideSubtable, Overflows, Built;
      hide AllUnused, OneBitCode, WideExplained;
      o, b, k, rest := ReadOrder(ll, nb, b0, k0, rest0);
      if !o.Ok? {
        return;
      }
      ghost var clens := ll[..19];
      var rc, tl, bl, cx, infos := Build(ll[..19], CODE_LENGTHS, 7);
      if rc != 0 {
        return Bad(rc), b, k, rest;
      }
      if |tl| == 0 {
        NoLengths(cx, n, tl, infos, rest);
        return Undefined, b, k, rest;
      }
      OneTableBuilt(cx, tl, bl, infos);
      o, b, k, rest := ReadLengths(ll, n, tl, bl, b, k, cx, infos, rest);
    }

    /** Build the tables of a dynamic block; an incomplete code ends in error(). */
    method BuildCodes(lit: Lengths, dist: Lengths)
      returns (o: Outcome, tl: Arena, td: Arena, bl: nat, bd: nat, ghost lcx: Ctx, ghost linfos: seq<HuftTables.Info>,
               ghost dcx: Ctx, ghost dinfos: seq<HuftTables.Info>)
      requires 257 <= |lit| <= 286 && 1 <= |dist| <= 30
      ensures o.Ok? ==> Acceptable(lit) && Acceptable(dist)
      ensures o.Ok? ==> Ready(tl, bl, lcx, linfos) && lcx.lens == lit && lcx.m == LITERALS
      ensures o.Ok? ==> Ready(td, bd, dcx, dinfos) && dcx.lens == dist && dcx.m == DISTANCES
      ensures !o.Ok? ==> (o.ErrorStop? || o.Bad?) && !(Acceptable(lit) && Acceptable(dist))
    {
      hide Complete, Oversubscribed, IsShortest, IsLongest, NoWideSubtable, Overflows, Built, AllUnused, OneBitCode;
      hide WideExplained, Ready;
      var i;
      td, bd, dcx, dinfos := [], 0, Ctx(dist, DISTANCES, 0, 0), [];
      i, tl, bl, lcx, linfos := Build(lit, LITERALS, 9);
      if i != 0 {
        o := if i == 1 then ErrorStop else Bad(i);
        return;
      }
      LiteralsReady(lit, tl, bl, lcx, linfos);
      i, td, bd, dcx, dinfos := Build(dist, DISTANCES, 6);
      if i != 0 {
        o := if i == 1 then ErrorStop else Bad(i);
        return;
      }
      DistancesReady(dist, td, bd, dcx, dinfos);
      o := Ok;
    }

    /** Everything before the compressed data of a dynamic block. */
    method DynamicHeader(ghost rest0: seq<bool>)
      returns (o: Outcome, lit: Lengths, dist: Lengths, ghost rest: seq<bool>)
      requires Synced(input, inptr, bb, bk, rest0)
      modifies this`inptr, this`bb, this`bk
      ensures inptr <= |input|
      ensures o.Ok? ==> 257 <= |lit| <= 286 && 1 <= |dist| <= 30 && Synced(input, inptr, bb, bk, rest)
      ensures o.Ok? ==>
        RefHeader(rest0) == if Acceptable(lit) && Acceptable(dist) then Done((lit, dist), rest) else Stuck
      ensures !o.Ok? ==> Justified(o, RefHeader(rest0))
    {
      hide Synced, RefCounts, RefAllLengths, Acceptable;
      var b, k, nl, nd, nb;
      lit, dist := [], [];
      o, nl, nd, nb, b, k, rest := GetCounts(bb, bk, rest0);
      if !o.Ok? {
        return;
      }
      var ll := new nat[286 + 30];
      o, b, k, rest := GetLengths(ll, nl + nd, nb, b, k, rest);
      if !o.Ok? {
        return;
      }
      bb, bk := b, k;
      assert ll[..nl + nd][..nl] == ll[..nl] && ll[..nl + nd][nl..] == ll[nl..nl + nd];
      InRangeParts(ll[..nl + nd], nl);
      lit, dist := ll[..nl], ll[nl..nl + nd];
    }

    method InflateDynamic(ghost rest0: seq<bool>, ghost out0: seq<byte>)
      returns (o: Outcome, ghost rest: seq<bool>, ghost out: seq<byte>)
      requires Writes(outcnt, out0) && Synced(input, inptr, bb, bk, rest0)
      modifies this`inptr, this`bb, this`bk, this`outcnt, this`output, window, register`crc
      ensures Valid()
      ensures o.Ok? ==> RefDynamic(rest0, out0) == Done(out, rest)
      ensures o.Ok? ==> Synced(input, inptr, bb, bk, rest) && Writes(outcnt, out)
      ensures !o.Ok? ==> Justified(o, RefDynamic(rest0, out0))
    {
      hide Synced, RefHeader, Acceptable, Ready, Holds, RefCodes;
      var lit, dist;
      out := out0;
      o, lit, dist, rest := DynamicHeader(rest0);
      if !o.Ok? {
        return;
      }
      var tl, td, bl, bd;
      ghost var lcx, linfos, dcx, dinfos;
      o, tl, td, bl, bd, lcx, linfos, dcx, dinfos := BuildCodes(lit, dist);
      if !o.Ok? {
        return;
      }
      o, rest, out := InflateCodes(tl, td, bl, bd, lcx, linfos, dcx, dinfos, rest, out0);
    }

    /** Read the last-block flag and the type, and decompress that type. */
    method InflateBlock(ghost rest0: seq<bool>, ghost out0: seq<byte>)
      returns (o: Outcome, last: nat, ghost rest: seq<bool>, ghost out: seq<byte>)
      requires Writes(outcnt, out0) && Synced(input, inptr, bb, bk, rest0)
      modifies this`inptr, this`bb, this`bk, this`outcnt, this`output, window, register`crc
      ensures Valid()
      ensures o.Ok? ==> RefBlock(rest0, out0) == Done((last == 1, out), rest)
      ensures o.Ok? ==> Synced(input, inptr, bb, bk, rest) && Writes(outcnt, out)
      ensures !o.Ok? ==> Justified(o, RefBlock(rest0, out0))
    {
      hide Synced, Holds, RefNum, RefStored, RefFixed, RefDynamic;
      var t;
      rest, out := rest0, out0;
      var b, k;
      o, last, b, k, rest := GetBits(1, bb, bk, rest);
      if !o.Ok? {
        return;
      }
      o, t, b, k, rest := GetBits(2, b, k, rest);
      if !o.Ok? {
        return;
      }
      bb, bk := b, k;
      if t == 2 {
        o, rest, out := InflateDynamic(rest, out);
      } else if t == 0 {
        o, rest, out := InflateStored(rest, out);
      } else if t == 1 {
        o, rest, out := InflateFixed(rest, out);
      } else {
        o := Bad(2);
      }
    }

    /** All blocks up to the last one. */
    method InflateBlocks(ghost rest0: seq<bool>, ghost out0: seq<byte>)
      returns (o: Outcome, ghost rest: seq<bool>, ghost out: seq<byte>)
      requires Writes(outcnt, out0) && Synced(input, inptr, bb, bk, rest0)
      modifies this`inptr, this`bb, this`bk, this`outcnt, this`output, window, register`crc
      ensures Valid()
      ensures o.Ok? ==> RefBlocks(rest0, out0) == Done(out, rest)
      ensures o.Ok? ==> Synced(input, inptr, bb, bk, rest) && Writes(outcnt, out)
      ensures !o.Ok? ==> Justified(o, RefBlocks(rest0, out0))
    {
      hide Synced, RefBlock, Holds, WholeWindows;
      rest, out := rest0, out0;
      var e := 0;
      while e != 1
        invariant Writes(outcnt, out) && Synced(input, inptr, bb, bk, rest)
        invariant RefBlocks(rest0, out0) == if e == 1 then Done(out, rest) else RefBlocks(rest, out)
        decreases e != 1, |rest|
      {
        o, e, rest, out := InflateBlock(rest, out);
        if !o.Ok? {
          return;
        }
      }
      o := Ok;
    }

    /**
     Decompress: on success the flushed output is that of the reference decoder, the CRC
     register has seen all of it, and inptr is just past the last byte used. On failure
     the reference decoder fails too, or less than two bytes of input follow the data.
     */
    method Run() returns (o: Outcome, ghost rest: seq<bool>)
      requires Valid() && inptr == 0 && output == [] && forall i :: 0 <= i < WSIZE ==> window[i] == 0
      modifies this`inptr, this`bb, this`bk, this`outcnt, this`output, window, register`crc
      ensures Valid()
      ensures o.Ok? ==> RefInflate(input) == Done(output, rest) && BitsOf(input[inptr..]) == Align(rest)
      ensures !o.Ok? ==> Justified(o, RefInflate(input))
      ensures RefInflate(input).Done? && |RefInflate(input).rest| >= 16 ==> o.Ok?
    {
      ghost var out;
      outcnt, bk, bb := 0, 0, 0;
      hide Synced, BitsOf, RefBlocks, Align;
      StartSynced(input);
      o, rest, out := InflateBlocks(BitsOf(input), []);
      if !o.Ok? {
        return;
      }
      Finish(rest, out);
    }

    /** Give the bytes read too far back, write out the rest of the window. */
    method Finish(ghost rest: seq<bool>, ghost out: seq<byte>)
      requires Writes(outcnt, out) && Synced(input, inptr, bb, bk, rest)
      modifies this`inptr, this`bk, this`outcnt, this`output, register`crc
      ensures Valid() && output == out && BitsOf(input[inptr..]) == Align(rest)
    {
      hide Synced, BitsOf, Align;
      SyncedBound(input, inptr, bb, bk, rest);
      GiveBack(input, inptr, bb, bk, rest);
      ghost var k0, p0 := bk, inptr;
      while bk >= 8
        modifies this`bk, this`inptr
        invariant inptr <= p0 && bk + 8 * (p0 - inptr) == k0
      {
        bk, inptr := bk - 8, inptr - 1;
      }
      FlushOutput(outcnt, out);
    }
  }

  lemma StartSynced(input: seq<byte>)
    ensures Synced(input, 0, 0, 0, BitsOf(input))
  {
    assert input[0..] == input;
  }

  /** With no code at all not even one length can be read. */
  lemma NoLengths(cx: Ctx, n: nat, tl: Arena, infos: seq<HuftTables.Info>, rest: seq<bool>)
    requires |cx.lens| == 19 && n > 0 && |tl| == 0 && (!AllUnused(cx.lens) ==> Built(cx, tl, infos))
    ensures RefLengths(cx.lens, n, rest, []).Stuck?
  {
    NothingUsed(cx.lens, rest);
  }

  lemma OneTableBuilt(cx: Ctx, tl: Arena, bl: nat, infos: seq<HuftTables.Info>)
    requires |cx.lens| == 19 && cx.m == CODE_LENGTHS && |tl| > 0 && (AllUnused(cx.lens) ==> tl == [])
    requires forall i :: 0 <= i < 19 ==> cx.lens[i] < 8
    requires cx.l == bl && Built(cx, tl, infos) && (NoWideSubtable(cx, infos) <==> !Overflows(cx))
    requires forall j :: IsShortest(cx.lens, j) ==> bl == Clamp(7, j, cx.g)
    ensures OneTable(tl, bl, cx, infos)
  {
    var j := SomeShortest(cx.lens);
    BuiltCtx(cx, tl, infos);
    LongestBelow(cx);
    hide Overflows, NoWideSubtable, Built;
    LookupSuffices(cx, 7, j);
  }

  lemma BuiltCtx(cx: Ctx, arena: Arena, infos: seq<HuftTables.Info>)
    requires Built(cx, arena, infos)
    ensures CtxOK(cx)
  {
  }

  lemma LongestBelow(cx: Ctx)
    requires CtxOK(cx) && forall i :: 0 <= i < |cx.lens| ==> cx.lens[i] < 8
    ensures cx.g < 8
  {
  }

  lemma LiteralsReady(lit: Lengths, tl: Arena, bl: nat, cx: Ctx, infos: seq<HuftTables.Info>)
    requires cx.lens == lit && (AllUnused(lit) ==> tl == [] && bl == 0)
    requires !AllUnused(lit) ==>
      && cx.l == bl && Built(cx, tl, infos) && (NoWideSubtable(cx, infos) <==> !Overflows(cx))
      && (forall j :: IsShortest(lit, j) ==> bl == Clamp(9, j, cx.g))
    ensures Ready(tl, bl, cx, infos)
  {
    if !AllUnused(lit) {
      BuiltCtx(cx, tl, infos);
    }
    hide Overflows, NoWideSubtable, Built;
    TablesReady(lit, 9, tl, bl, cx, infos);
  }

  lemma DistancesReady(dist: Lengths, td: Arena, bd: nat, cx: Ctx, infos: seq<HuftTables.Info>)
    requires cx.lens == dist && (AllUnused(dist) ==> td == [] && bd == 0) && |dist| <= 30 && Acceptable(dist)
    requires !AllUnused(dist) ==>
      && cx.l == bd && Built(cx, td, infos) && (NoWideSubtable(cx, infos) <==> !Overflows(cx))
      && (forall j :: IsShortest(dist, j) ==> bd == Clamp(6, j, cx.g))
    ensures Ready(td, bd, cx, infos)
  {
    if !AllUnused(dist) {
      BuiltCtx(cx, td, infos);
      if OneBitCode(dist) {
        OneBitLongest(cx);
      }
    }
    assert Pow2(6) == 64;
    hide Overflows, NoWideSubtable, Built;
    TablesReady(dist, 6, td, bd, cx, infos);
  }

  lemma LookupBeyond(tl: Arena, bl: nat, cx: Ctx, infos: seq<HuftTables.Info>, start: seq<bool>)
    requires OneTable(tl, bl, cx, infos)
    ensures bl <= BMAX
    ensures RefSym(cx.lens, start).Done? ==> |RefSym(cx.lens, start).rest| <= |start|
  {
    BuiltCtx(cx, tl, infos);
    hide Built, NoWideSubtable, RefSym;
  }

  /** What the one table says about the next symbol. */
  lemma OneLookup(tl: Arena, bl: nat, cx: Ctx, infos: seq<HuftTables.Info>, start: seq<bool>)
    requires OneTable(tl, bl, cx, infos) && bl <= |start|
    ensures |tl| > 0 && Lsb(start[..bl]) < |tl[0]|
    ensures match tl[0][Lsb(start[..bl])]
            case Unset => RefSym(cx.lens, start).Stuck?
            case Link(_, _, _) => false
            case Entry(e, b, n) =>
              if e == 99 then RefSym(cx.lens, start).Stuck?
              else b <= bl && RefSym(cx.lens, start) == Done(n, start[b..])
  {
    hide Built, NoWideSubtable, RefSym;
    AtRoot(cx, tl, infos, start);
    SlotRead(cx, tl, infos, 0, bl, start, start);
    SomeTable(cx, tl, infos, 0);
    SingleLevel(cx, tl, infos, Lsb(start[..bl]));
    var td := tl[0][Lsb(start[..bl])];
    if td.Unset? {
      SymbolPadded(cx.lens, start);
    } else {
      EntryRead(cx, infos, 0, bl, start, start, td);
      SymbolBelow(cx.lens, start);
    }
  }

  lemma StartLookup(arena: Arena, bl: nat, cx: Ctx, infos: seq<HuftTables.Info>, start: seq<bool>)
    requires Ready(arena, bl, cx, infos)
    ensures |arena| == 0 ==> RefSym(cx.lens, start).Stuck?
    ensures |arena| > 0 ==>
      Built(cx, arena, infos) && NoWideSubtable(cx, infos) && |infos| > 0 && AtTable(cx, infos, 0, bl, start, start)
  {
    if |arena| == 0 {
      NothingUsed(cx.lens, start);
    } else {
      AtRoot(cx, arena, infos, start);
    }
  }

  lemma EndOfInput(cx: Ctx, arena: Arena, infos: seq<HuftTables.Info>, t: nat, nb: nat, start: seq<bool>,
                   rest: seq<bool>)
    requires Built(cx, arena, infos) && NoWideSubtable(cx, infos) && AtTable(cx, infos, t, nb, start, rest)
    requires |rest| < nb
    ensures RefSym(cx.lens, start).Stuck? || |RefSym(cx.lens, start).rest| < 16
  {
    SymbolBeyond(cx, arena, infos, t, nb, start, rest);
  }

  /** What a slot that is no link, found with `rest` still to read, says about the symbol that begins at `start`. */
  ghost predicate SlotSays(cx: Ctx, h: Huft, start: seq<bool>, rest: seq<bool>)
    requires MeaningFor(cx.m, |cx.lens|) && !h.Link?
  {
    if h.Unset? then RefSym(cx.lens, start).Stuck?
    else if h.e == 99 then RefSym(cx.lens, start).Stuck? || SymEntry(cx.m, RefSym(cx.lens, start).value, 0).e == 99
    else
      && h.b <= |rest| && RefSym(cx.lens, start).Done? && RefSym(cx.lens, start).rest == rest[h.b..]
      && SymEntry(cx.m, RefSym(cx.lens, start).value, 0) == Entry(h.e, 0, h.n)
  }

  lemma SlotSaysWhat(cx: Ctx, h: Huft, start: seq<bool>, rest: seq<bool>)
    requires MeaningFor(cx.m, |cx.lens|) && !h.Link? && SlotSays(cx, h, start, rest)
    ensures h.Unset? ==> RefSym(cx.lens, start).Stuck?
    ensures h.Entry? && h.e == 99 ==>
      RefSym(cx.lens, start).Stuck? || SymEntry(cx.m, RefSym(cx.lens, start).value, 0).e == 99
    ensures h.Entry? && h.e != 99 ==>
      && h.b <= |rest| && RefSym(cx.lens, start) == Done(RefSym(cx.lens, start).value, rest[h.b..])
      && SymEntry(cx.m, RefSym(cx.lens, start).value, 0) == Entry(h.e, 0, h.n)
  {
  }

  /** The slot selected by the next nb bits. */
  lemma LookupAt(cx: Ctx, arena: Arena, infos: seq<HuftTables.Info>, t: nat, nb: nat, start: seq<bool>, rest: seq<bool>)
    requires Built(cx, arena, infos) && NoWideSubtable(cx, infos) && AtTable(cx, infos, t, nb, start, rest)
    requires nb <= |rest|
    requires MeaningFor(cx.m, |cx.lens|)
    ensures t < |arena| && Lsb(rest[..nb]) < |arena[t]|
    ensures var h := arena[t][Lsb(rest[..nb])];
      && (h.Link? ==>
            t < h.t < |infos| && h.b == nb && h.e >= 16 && AtTable(cx, infos, h.t, h.e - 16, start, rest[h.b..]))
      && (!h.Link? ==> SlotSays(cx, h, start, rest))
      && (h.Entry? && h.e != 99 ==> h.b <= nb)
  {
    hide Built, NoWideSubtable, RefSym, Lsb;
    SlotRead(cx, arena, infos, t, nb, start, rest);
    SomeTable(cx, arena, infos, t);
    SymbolBelow(cx.lens, start);
    match arena[t][Lsb(rest[..nb])]
    case Unset => SymbolPadded(cx.lens, start);
    case Link(_, _, _) =>
    case Entry(op, drop, n) =>
      EntryRead(cx, infos, t, nb, start, rest, Entry(op, drop, n));
      SameEntry(cx.m, |cx.lens|, drop);
  }

  /** Stores a run of equal lengths. */
  method FillRun(ll: array<nat>, i: nat, count: nat, length: nat)
    requires i + count <= ll.Length
    modifies ll
    ensures ll[..i + count] == old(ll[..i]) + Repeat(length, count)
  {
    var j := 0;
    while j < count
      invariant j <= count && ll[..i + j] == old(ll[..i]) + Repeat(length, j)
    {
      ll[i + j] := length;
      j := j + 1;
    }
  }

  /** A usable code length code has one table of at most 7 index bits. */
  ghost predicate OneTable(tl: Arena, bl: nat, cx: Ctx, infos: seq<HuftTables.Info>) {
    && Built(cx, tl, infos) && NoWideSubtable(cx, infos) && bl == cx.l == cx.g
    && cx.m == CODE_LENGTHS && |cx.lens| == 19
  }

  lemma ShortRun(j: nat, rest: seq<bool>, acc: seq<nat>)
    requires j < 16
    ensures RefRun(j, rest, acc) == Done([j], rest)
  {
  }

  lemma InRangeNext(acc: seq<nat>, j: nat)
    requires InRange(acc) && j < 16
    ensures InRange(acc + [j])
  {
  }

  /** The first j lengths sent are stored, in their order; the others are zero in `lens`. */
  ghost predicate Ordered(stored: seq<nat>, lens: seq<nat>, j: nat)
    requires j <= 19
  {
    && |stored| == |lens| == 19
    && (forall i :: 0 <= i < j ==> stored[Order(i)] == lens[Order(i)] < 8)
    && (forall i :: j <= i < 19 ==> lens[Order(i)] == 0)
  }

  lemma OrderStep(n: nat, j: nat, rest: seq<bool>, lens: seq<nat>)
    requires j <= n <= 19 == |lens|
    ensures j == n ==> RefOrder(n, j, rest, lens) == Done(lens, rest)
    ensures j < n ==> match RefNum(rest, 3)
                      case Stuck => RefOrder(n, j, rest, lens).Stuck?
                      case Done(x, rest1) =>
                        RefOrder(n, j, rest, lens) == RefOrder(n, j + 1, rest1, lens[Order(j) := x])
  {
  }

  /** One step of reading the lengths. */
  lemma LengthsStep(clens: seq<nat>, n: nat, rest: seq<bool>, acc: seq<nat>)
    requires |clens| == 19 && |acc| < n
    ensures match RefSym(clens, rest)
            case Stuck => RefLengths(clens, n, rest, acc).Stuck?
            case Done(sym, rest1) =>
              |rest1| < |rest| && sym < 19 && RefLengths(clens, n, rest, acc) == AfterSymbol(clens, n, sym, rest1, acc)
  {
    hide RefSym;
  }

  /** The lengths, once the next symbol is read. */
  ghost function AfterSymbol(clens: seq<nat>, n: nat, sym: nat, rest: seq<bool>, acc: seq<nat>): Ref<seq<nat>>
    requires |clens| == 19 && sym < 19
  {
    var (run, rest') :- RefRun(sym, rest, acc);
    RefLengths(clens, n, rest', acc + run)
  }

  lemma TooMany(clens: seq<nat>, n: nat, rest: seq<bool>, acc: seq<nat>)
    requires |clens| == 19 && |acc| > n
    ensures RefLengths(clens, n, rest, acc).Stuck?
  {
  }

  lemma LengthsEnd(clens: seq<nat>, n: nat, rest: seq<bool>, acc: seq<nat>)
    requires |clens| == 19 && |acc| == n
    ensures RefLengths(clens, n, rest, acc) == Done(acc, rest)
  {
  }

  lemma InRangeParts(lens: seq<nat>, n: nat)
    requires InRange(lens) && n <= |lens|
    ensures InRange(lens[..n]) && InRange(lens[n..])
  {
  }

  lemma InRangeRepeat(acc: seq<nat>, length: nat, count: nat)
    requires InRange(acc) && length <= BMAX
    ensures InRange(acc + Repeat(length, count)) && |Repeat(length, count)| == count
    ensures count > 0 ==>
      (acc + Repeat(length, count))[|acc| + count - 1] == length
  {
  }

  lemma OrderedStart(stored: seq<nat>, lens: seq<nat>)
    requires |stored| == 19 && lens == Repeat(0, 19)
    ensures Ordered(stored, lens, 0)
  {
    OrderIsPermutation();
  }

  function Place(v: nat): nat
    requires v < 19
  {
    [3, 17, 15, 13, 11, 9, 7, 5, 4, 6, 8, 10, 12, 14, 16, 18, 0, 1, 2][v]
  }

  /** Every code length is sent at exactly one place. */
  lemma OrderIsPermutation()
    ensures forall i :: 0 <= i < 19 ==> Place(Order(i)) == i
    ensures forall v :: 0 <= v < 19 ==> Place(v) < 19 && Order(Place(v)) == v
  {
  }

  method StoreOrdered(ll: array<nat>, j: nat, x: nat, ghost lens: seq<nat>) returns (ghost lens': seq<nat>)
    requires 19 <= ll.Length && j < 19 && x < 8 && Ordered(ll[..19], lens, j)
    modifies ll
    ensures lens' == lens[Order(j) := x] && Ordered(ll[..19], lens', j + 1)
  {
    ghost var before := ll[..19];
    OrderedNext(before, lens, j, x);
    ll[Order(j)] := x;
    assert ll[..19] == before[Order(j) := x];
    lens' := lens[Order(j) := x];
  }

  /** Gives length zero to the codes whose lengths were not sent. */
  method ZeroRest(ll: array<nat>, nb: nat, ghost lens: seq<nat>)
    requires nb <= 19 <= ll.Length && Ordered(ll[..19], lens, nb)
    modifies ll
    ensures ll[..19] == lens && forall i :: 0 <= i < 19 ==> ll[i] < 8
  {
    var j := nb;
    while j < 19
      invariant nb <= j <= 19 && Ordered(ll[..19], lens, j)
    {
      ghost var before := ll[..19];
      OrderedRest(before, lens, j);
      ll[Order(j)] := 0;
      assert ll[..19] == before[Order(j) := 0];
      j := j + 1;
    }
    OrderCovers(ll[..19], lens);
  }

  lemma OrderedNext(stored: seq<nat>, lens: seq<nat>, j: nat, x: nat)
    requires j < 19 && Ordered(stored, lens, j) && x < 8
    ensures Ordered(stored[Order(j) := x], lens[Order(j) := x], j + 1)
  {
    OrderIsPermutation();
  }

  lemma OrderedRest(stored: seq<nat>, lens: seq<nat>, j: nat)
    requires j < 19 && Ordered(stored, lens, j)
    ensures Ordered(stored[Order(j) := 0], lens, j + 1)
  {
    OrderIsPermutation();
  }

  lemma OrderCovers(stored: seq<nat>, lens: seq<nat>)
    requires Ordered(stored, lens, 19)
    ensures stored == lens && forall i :: 0 <= i < 19 ==> stored[i] < 8
  {
    OrderIsPermutation();
    forall v | 0 <= v < 19
      ensures stored[v] == lens[v] < 8
    {
      assert Order(Place(v)) == v;
    }
  }

  lemma ThreeBits(rest: seq<bool>, x: nat)
    requires RefNum(rest, 3).Done? && RefNum(rest, 3).value == x
    ensures x < 8
  {
    assert Pow2(3) == 8;
  }

  lemma SameRemainder(a: nat, k: nat, c: nat)
    requires a == k + 8 * c
    ensures a % 8 == k % 8
  {
  }

  lemma EightBits(rest: seq<bool>, x: nat)
    requires RefNum(rest, 8).Done? && RefNum(rest, 8).value == x
    ensures x < 256
  {
    assert Pow2(8) == 256;
  }

  method FixedLiteralLengths() returns (l: seq<nat>)
    ensures l == FIXED_LITERALS
  {
    l := [];
    var i := 0;
    while i < 144
      invariant 0 <= i <= 144 && l == Repeat(8, i)
    {
      l, i := l + [8], i + 1;
    }
    while i < 256
      invariant 144 <= i <= 256 && l == Repeat(8, 144) + Repeat(9, i - 144)
    {
      l, i := l + [9], i + 1;
    }
    while i < 280
      invariant 256 <= i <= 280 && l == Repeat(8, 144) + Repeat(9, 112) + Repeat(7, i - 256)
    {
      l, i := l + [7], i + 1;
    }
    while i < 288
      invariant 280 <= i <= 288 && l == Repeat(8, 144) + Repeat(9, 112) + Repeat(7, 24) + Repeat(8, i - 280)
    {
      l, i := l + [8], i + 1;
    }
  }

  lemma FixedLiteralsReady(tl: Arena, bl: nat, cx: Ctx, infos: seq<HuftTables.Info>)
    requires cx.lens == FIXED_LITERALS
    requires cx.l == bl && Built(cx, tl, infos) && (NoWideSubtable(cx, infos) <==> !Overflows(cx))
    requires forall j :: IsShortest(cx.lens, j) ==> bl == Clamp(7, j, cx.g)
    ensures Ready(tl, bl, cx, infos)
  {
    FixedLiteralsComplete();
    hide Overflows, NoWideSubtable;
    TablesReady(FIXED_LITERALS, 7, tl, bl, cx, infos);
  }

  lemma FixedDistancesReady(td: Arena, bd: nat, cx: Ctx, infos: seq<HuftTables.Info>)
    requires cx.lens == FIXED_DISTANCES
    requires cx.l == bd && Built(cx, td, infos) && (NoWideSubtable(cx, infos) <==> !Overflows(cx))
    requires forall j :: IsShortest(cx.lens, j) ==> bd == Clamp(5, j, cx.g)
    ensures Ready(td, bd, cx, infos)
  {
    FixedDistancesUsable();
    hide Overflows, NoWideSubtable;
    TablesReady(FIXED_DISTANCES, 5, td, bd, cx, infos);
  }

  /** The operations of literal, end-of-block and length entries. */
  lemma LiteralEntries()
    ensures forall sym: nat {:trigger SymEntry(LITERALS, sym, 0)} :: sym < 288 ==>
      var h := SymEntry(LITERALS, sym, 0);
      && h.Entry?
      && (sym < 256 ==> h.e == 16 && h.n == sym)
      && (sym == 256 ==> h.e == 15)
      && (257 <= sym < 286 ==> h.e == LENGTH_EXTRA[sym - 257] < 15 && h.n == LENGTH_BASE[sym - 257])
      && (286 <= sym ==> h.e == 99)
  {
    hide LENGTH_EXTRA, LENGTH_BASE;
    forall i: nat | i < 31
      ensures |LENGTH_EXTRA| == |LENGTH_BASE| == 31
      ensures if i < 29 then LENGTH_EXTRA[i] < 15 else LENGTH_EXTRA[i] == 99
    {
      LengthBits(i);
    }
  }

  lemma LengthBits(i: nat)
    requires i < 31
    ensures |LENGTH_EXTRA| == |LENGTH_BASE| == 31
    ensures if i < 29 then LENGTH_EXTRA[i] < 15 else LENGTH_EXTRA[i] == 99
  {
  }

  lemma DistanceEntries()
    ensures forall sym: nat {:trigger SymEntry(DISTANCES, sym, 0)} :: sym < 30 ==>
      SymEntry(DISTANCES, sym, 0).Entry? && SymEntry(DISTANCES, sym, 0).e < 99
  {
  }

  lemma CopyNone(out: seq<byte>, dist: nat)
    requires dist >= 1
    ensures Copy(out, dist, 0) == out
  {
  }

  lemma BackIs(ds: nat, e: nat, v: nat, rest: seq<bool>)
    requires ds < 30 && SymEntry(DISTANCES, ds, 0) == Entry(e, 0, v)
    ensures RefBack(ds, rest) == RefValue(v, e, rest) && e <= BMAX
  {
    hide RefValue, Pow2, DISTANCE_EXTRA, DISTANCE_BASE;
    BackBits(ds);
  }

  lemma BackBits(ds: nat)
    requires ds < 30
    ensures |DISTANCE_EXTRA| == |DISTANCE_BASE| == 30 && DISTANCE_EXTRA[ds] <= 13
  {
  }

  lemma SymbolBelow(lens: seq<nat>, start: seq<bool>)
    ensures RefSym(lens, start).Done? ==> RefSym(lens, start).value < |lens|
  {
  }

  lemma IndexFits(cx: Ctx, infos: seq<HuftTables.Info>, t: nat, nb: nat, start: seq<bool>, rest: seq<bool>)
    requires AtTable(cx, infos, t, nb, start, rest)
    ensures nb <= BMAX
  {
  }

  lemma RootFits(cx: Ctx, arena: Arena, infos: seq<HuftTables.Info>)
    requires Built(cx, arena, infos)
    ensures cx.l <= BMAX
  {
  }

  lemma SomeTable(cx: Ctx, arena: Arena, infos: seq<HuftTables.Info>, t: nat)
    requires Built(cx, arena, infos) && t < |infos|
    ensures t < |arena| && !Oversubscribed(cx.lens) && CtxOK(cx)
  {
  }

  /** The number of bits dropped is all in which the entries of a symbol differ. */
  lemma SameEntry(m: Meaning, n: nat, drop: nat)
    requires MeaningFor(m, n)
    ensures forall sym: nat {:trigger SymEntry(m, sym, drop)} :: sym < n ==>
      SymEntry(m, sym, 0).e == SymEntry(m, sym, drop).e && SymEntry(m, sym, 0).n == SymEntry(m, sym, drop).n
      && SymEntry(m, sym, 0) == Entry(SymEntry(m, sym, drop).e, 0, SymEntry(m, sym, drop).n)
  {
  }

  /** Masking the source index brings it back into the window. */
  lemma WrapIs(d: int, w: nat, dist: nat)
    requires w < WSIZE && 1 <= dist <= WSIZE
    ensures d == w - dist || d == w - dist + WSIZE || d == w - dist + 2 * WSIZE ==>
      d % WSIZE == Inflater.Source(w, dist)
  {
  }
}

/**
 Every byte string has an encoding, no encoding begins another, and what the decoder refuses.
 */
module Encodings {
  import opened Basics
  import opened Bits
  import opened Huffman
  import opened Deflate
  import opened Encoder
  import opened Encoded

  // ------------------------------------------------------------------
  // Every byte string has an encoding

  /** Some zeros to the next byte boundary. */
  function Padding(pos: nat): (pad: seq<bool>)
    ensures |pad| < 8 && (pos + 3 + |pad|) % 8 == 0
  {
    Zeros((8 - (pos + 3) % 8) % 8)
  }

  /** The data from `at` on in stored blocks of at most 65535 bytes. */
  lemma {:induction false} StoredForm(data: seq<byte>, at: nat, pos: nat) returns (blocks: seq<Block>)
    requires at <= |data|
    ensures AllWritable(blocks, pos) && BlocksMean(blocks, data, at)
    decreases |data| - at
  {
    hide AllWritable, BlocksMean, BlockBits, Padding;
    var n := if |data| - at <= 65535 then |data| - at else 65535;
    var b := Stored(data[at..at + n], Padding(pos));
    StoredFits(b, pos);
    if at + n == |data| {
      blocks := [b];
      OnlyOne(b, data, at, pos);
    } else {
      var more := StoredForm(data, at + n, pos + |BlockBits(b, false)|);
      blocks := [b] + more;
      MoreWritable(b, more, pos);
      MoreMean(b, more, data, at);
    }
  }

  lemma StoredFits(b: Block, pos: nat)
    requires b.Stored? && |b.bytes| <= 65535 && b.pad == Padding(pos)
    ensures Writable(b) && OnBoundary(b, pos)
  {
  }

  lemma OnlyOne(b: Block, data: seq<byte>, at: nat, pos: nat)
    requires Writable(b) && OnBoundary(b, pos) && BlockMeans(b, data, at) && at + BlockSize(b) == |data|
    ensures AllWritable([b], pos) && BlocksMean([b], data, at)
  {
    hide Writable, OnBoundary, BlockMeans, BlockSize;
    assert [b][1..] == [];
  }

  lemma MoreMean(b: Block, more: seq<Block>, data: seq<byte>, at: nat)
    requires BlockMeans(b, data, at) && BlocksMean(more, data, at + BlockSize(b))
    ensures BlocksMean([b] + more, data, at)
  {
    hide BlockMeans, BlockSize;
    assert ([b] + more)[1..] == more;
  }

  lemma MoreWritable(b: Block, more: seq<Block>, pos: nat)
    requires Writable(b) && OnBoundary(b, pos) && AllWritable(more, pos + |BlockBits(b, false)|)
    ensures AllWritable([b] + more, pos)
  {
    hide Writable, OnBoundary, BlockBits;
    assert ([b] + more)[1..] == more;
  }

  /** Bits in bytes, the last byte filled with zeros. */
  function Pack(bits: seq<bool>): (bytes: seq<byte>)
    ensures |bytes| == (|bits| + 7) / 8
    decreases |bits|
  {
    if bits == [] then []
    else if |bits| < 8 then [PackByte(bits + Zeros(8 - |bits|))]
    else [PackByte(bits[..8])] + Pack(bits[8..])
  }

  function PackByte(bits: seq<bool>): byte
    requires |bits| == 8
  {
    assert Pow2(8) == 256;
    Lsb(bits)
  }

  lemma PackByteIs(bits: seq<bool>)
    requires |bits| == 8
    ensures LsbBits(PackByte(bits), 8) == bits
  {
    BitsOfLsb(bits);
  }

  lemma {:induction false} PackBegins(bits: seq<bool>)
    ensures bits <= BitsOf(Pack(bits))
    decreases |bits|
  {
    hide LsbBits, PackByte;
    if bits == [] {
    } else if |bits| < 8 {
      var b := bits + Zeros(8 - |bits|);
      PackByteIs(b);
      assert Pack(bits)[1..] == [];
      assert BitsOf(Pack(bits)) == b;
    } else {
      PackByteIs(bits[..8]);
      PackBegins(bits[8..]);
      assert Pack(bits)[1..] == Pack(bits[8..]);
      assert bits == bits[..8] + bits[8..];
    }
  }

  /** For all data there is an input that inflates to it, with less than a byte to spare. */
  lemma EveryDataInflates(data: seq<byte>) returns (input: seq<byte>)
    ensures RefInflate(input).Done? && RefInflate(input).value == data && |RefInflate(input).rest| < 8
  {
    hide AllWritable, BlocksMean, BlocksBits, StreamBits, RefInflate;
    var blocks := StoredForm(data, 0, 0);
    input := Pack(BlocksBits(blocks, 0));
    PackBegins(BlocksBits(blocks, 0));
    StreamIsBits(input);
    InflateInverts(input, blocks, data);
  }

  // ------------------------------------------------------------------
  // More bits at the end change nothing

  /** The same value, with `t` behind what is left. */
  predicate Extends<T(==)>(a: Ref<T>, b: Ref<T>, t: seq<bool>) {
    a.Done? ==> b == Done(a.value, a.rest + t)
  }

  lemma NumExtends(s: seq<bool>, n: nat, t: seq<bool>)
    ensures Extends(RefNum(s, n), RefNum(s + t, n), t)
  {
    if n <= |s| {
      assert (s + t)[..n] == s[..n] && (s + t)[n..] == s[n..] + t;
    }
  }

  lemma SymExtends(lens: Lengths, s: seq<bool>, t: seq<bool>)
    requires !Oversubscribed(lens)
    ensures Extends(RefSym(lens, s), RefSym(lens, s + t), t)
  {
    hide Oversubscribed, Code, Used;
    if RefSym(lens, s).Done? {
      var sym := RefSym(lens, s).value;
      assert Reads(lens, s + t, sym);
      PrefixFree(lens, s + t, sym, RefSymbol(lens, s + t).value);
      assert (s + t)[lens[sym]..] == s[lens[sym]..] + t;
    }
  }

  lemma ValueExtends(base: nat, extra: nat, s: seq<bool>, t: seq<bool>)
    ensures Extends(RefValue(base, extra, s), RefValue(base, extra, s + t), t)
  {
    hide RefNum;
    NumExtends(s, extra, t);
  }

  lemma CopyExtended(sym: nat, dist: Lengths, s: seq<bool>, t: seq<bool>)
    requires 257 <= sym < 286 && |dist| <= 30 && !Oversubscribed(dist)
    ensures Extends(RefCopy(sym, dist, s), RefCopy(sym, dist, s + t), t)
  {
    hide RefValue, RefSym, Oversubscribed, LENGTH_BASE, LENGTH_EXTRA, DISTANCE_BASE, DISTANCE_EXTRA;
    if RefCopy(sym, dist, s).Done? {
      ThirtyDistances();
      LastLength();
      ValueExtends(LENGTH_BASE[sym - 257], LENGTH_EXTRA[sym - 257], s, t);
      var s1 := RefLength(sym, s).rest;
      SymExtends(dist, s1, t);
      var ds := RefSym(dist, s1);
      ValueExtends(DISTANCE_BASE[ds.value], DISTANCE_EXTRA[ds.value], ds.rest, t);
    }
  }

  lemma {:induction false} CodesExtend(lit: Lengths, dist: Lengths, s: seq<bool>, out: seq<byte>, t: seq<bool>)
    requires |dist| <= 30 && !Oversubscribed(lit) && !Oversubscribed(dist)
    ensures Extends(RefCodes(lit, dist, s, out), RefCodes(lit, dist, s + t, out), t)
    decreases |s|
  {
    hide RefSym, RefCopy, Oversubscribed, Copy;
    if RefCodes(lit, dist, s, out).Done? {
      SymExtends(lit, s, t);
      var sym := RefSym(lit, s);
      if sym.value < 256 {
        CodesExtend(lit, dist, sym.rest, out + [sym.value as byte], t);
      } else if sym.value > 256 {
        CopyExtended(sym.value, dist, sym.rest, t);
        var nd := RefCopy(sym.value, dist, sym.rest);
        CodesExtend(lit, dist, nd.rest, Copy(out, nd.value.1, nd.value.0), t);
      }
    }
  }

  lemma {:induction false} BytesExtend(n: nat, s: seq<bool>, out: seq<byte>, t: seq<bool>)
    ensures Extends(RefBytes(n, s, out), RefBytes(n, s + t, out), t)
    decreases n
  {
    hide RefNum;
    if n > 0 && RefBytes(n, s, out).Done? {
      NumExtends(s, 8, t);
      assert Pow2(8) == 256;
      var x := RefNum(s, 8);
      BytesExtend(n - 1, x.rest, out + [x.value as byte], t);
    }
  }

  lemma StoredExtends(s: seq<bool>, out: seq<byte>, t: seq<bool>)
    requires |t| % 8 == 0
    ensures Extends(RefStored(s, out), RefStored(s + t, out), t)
  {
    hide RefNum, RefBytes, Align;
    AlignExtends(s, t);
    NumExtends(Align(s), 16, t);
    if RefStored(s, out).Done? {
      var len := RefNum(Align(s), 16);
      NumExtends(len.rest, 16, t);
      BytesExtend(len.value, RefNum(len.rest, 16).rest, out, t);
    }
  }

  lemma AlignExtends(s: seq<bool>, t: seq<bool>)
    requires |t| % 8 == 0
    ensures Align(s + t) == Align(s) + t
  {
    assert |s + t| % 8 == |s| % 8;
  }

  lemma {:induction false} OrderExtends(n: nat, j: nat, s: seq<bool>, lens: seq<nat>, t: seq<bool>)
    requires j <= n <= 19 == |lens|
    ensures Extends(RefOrder(n, j, s, lens), RefOrder(n, j, s + t, lens), t)
    decreases n - j
  {
    hide RefNum, Order;
    if j < n && RefOrder(n, j, s, lens).Done? {
      NumExtends(s, 3, t);
      var l := RefNum(s, 3);
      OrderExtends(n, j + 1, l.rest, lens[Order(j) := l.value], t);
    }
  }

  lemma RunExtends(sym: nat, s: seq<bool>, acc: seq<nat>, t: seq<bool>)
    requires sym < 19
    ensures Extends(RefRun(sym, s, acc), RefRun(sym, s + t, acc), t)
  {
    hide RefNum;
    NumExtends(s, 2, t);
    NumExtends(s, 3, t);
    NumExtends(s, 7, t);
  }

  lemma {:induction false} LengthsExtend(clens: Lengths, n: nat, s: seq<bool>, acc: seq<nat>, t: seq<bool>)
    requires |clens| == 19 && !Oversubscribed(clens)
    ensures Extends(RefLengths(clens, n, s, acc), RefLengths(clens, n, s + t, acc), t)
    decreases |s|
  {
    hide RefSym, RefRun, Oversubscribed;
    if |acc| < n && RefLengths(clens, n, s, acc).Done? {
      SymExtends(clens, s, t);
      var sym := RefSym(clens, s);
      RunExtends(sym.value, sym.rest, acc, t);
      var run := RefRun(sym.value, sym.rest, acc);
      LengthsExtend(clens, n, run.rest, acc + run.value, t);
    }
  }

  lemma CountsExtend(s: seq<bool>, t: seq<bool>)
    ensures Extends(RefCounts(s), RefCounts(s + t), t)
  {
    hide RefNum;
    if RefCounts(s).Done? {
      NumExtends(s, 5, t);
      var a := RefNum(s, 5);
      NumExtends(a.rest, 5, t);
      var b := RefNum(a.rest, 5);
      NumExtends(b.rest, 4, t);
    }
  }

  lemma DecodableNotOver(lens: seq<nat>)
    requires Decodable(lens)
    ensures InRange(lens) && !Oversubscribed(lens)
  {
    hide Kraft;
    if AllUnused(lens) {
      KraftOfOne(lens, |lens|);
    }
  }

  lemma AllLengthsExtend(n: nat, nb: nat, s: seq<bool>, t: seq<bool>)
    requires nb <= 19
    ensures Extends(RefAllLengths(n, nb, s), RefAllLengths(n, nb, s + t), t)
  {
    hide RefOrder, RefLengths, Decodable, Oversubscribed;
    if RefAllLengths(n, nb, s).Done? {
      OrderExtends(nb, 0, s, Repeat(0, 19), t);
      var clens := RefOrder(nb, 0, s, Repeat(0, 19));
      DecodableNotOver(clens.value);
      LengthsExtend(clens.value, n, clens.rest, [], t);
    }
  }

  lemma HeaderExtends(s: seq<bool>, t: seq<bool>)
    ensures Extends(RefHeader(s), RefHeader(s + t), t)
  {
    hide RefCounts, RefAllLengths, Decodable;
    if RefHeader(s).Done? {
      CountsExtend(s, t);
      var counts := RefCounts(s);
      AllLengthsExtend(counts.value.0 + counts.value.1, counts.value.2, counts.rest, t);
    }
  }

  lemma HeaderCodes(s: seq<bool>)
    requires RefHeader(s).Done?
    ensures Decodable(RefHeader(s).value.0) && Decodable(RefHeader(s).value.1)
  {
    hide RefCounts, RefAllLengths, Decodable;
  }

  lemma DynamicExtends(s: seq<bool>, out: seq<byte>, t: seq<bool>)
    ensures Extends(RefDynamic(s, out), RefDynamic(s + t, out), t)
  {
    hide RefHeader, RefCodes, Decodable, Oversubscribed;
    if RefDynamic(s, out).Done? {
      HeaderExtends(s, t);
      HeaderCodes(s);
      var codes := RefHeader(s);
      DecodableNotOver(codes.value.0);
      DecodableNotOver(codes.value.1);
      CodesExtend(codes.value.0, codes.value.1, codes.rest, out, t);
    }
  }

  lemma FixedExtends(s: seq<bool>, out: seq<byte>, t: seq<bool>)
    ensures Extends(RefFixed(s, out), RefFixed(s + t, out), t)
  {
    hide RefCodes, Oversubscribed, FIXED_LITERALS, FIXED_DISTANCES;
    FixedInRange();
    FixedDecoder();
    CodesExtend(FIXED_LITERALS, FIXED_DISTANCES, s, out, t);
  }

  lemma BlockExtends(s: seq<bool>, out: seq<byte>, t: seq<bool>)
    requires |t| % 8 == 0
    ensures Extends(RefBlock(s, out), RefBlock(s + t, out), t)
  {
    hide RefNum, RefStored, RefFixed, RefDynamic;
    if RefBlock(s, out).Done? {
      NumExtends(s, 1, t);
      var last := RefNum(s, 1);
      NumExtends(last.rest, 2, t);
      var kind := RefNum(last.rest, 2);
      StoredExtends(kind.rest, out, t);
      FixedExtends(kind.rest, out, t);
      DynamicExtends(kind.rest, out, t);
    }
  }

  lemma {:induction false} BlocksExtend(s: seq<bool>, out: seq<byte>, t: seq<bool>)
    requires |t| % 8 == 0
    ensures Extends(RefBlocks(s, out), RefBlocks(s + t, out), t)
    decreases |s|
  {
    hide RefBlock;
    if RefBlocks(s, out).Done? {
      BlockExtends(s, out, t);
      var b := RefBlock(s, out);
      if !b.value.0 {
        BlocksExtend(b.rest, b.value.1, t);
      }
    }
  }

  /** An encoding that is cut off anywhere is refused. */
  lemma CutOffRefused(input: seq<byte>, blocks: seq<Block>, data: seq<byte>)
    requires AllWritable(blocks, 0) && BlocksMean(blocks, data, 0)
    requires StreamBits(input) <= BlocksBits(blocks, 0) && |StreamBits(input)| < |BlocksBits(blocks, 0)|
    ensures RefInflate(input).Stuck?
  {
    hide AllWritable, BlocksMean, BlocksBits, StreamBits, RefBlocks;
    var s, bits := StreamBits(input), BlocksBits(blocks, 0);
    var fill := Zeros((8 - |bits| % 8) % 8);
    var t := bits[|s|..] + fill;
    assert bits + fill == s + t;
    FilledUp(|bits|, |s|, |fill|);
    BlocksRead(blocks, data, 0, 0, fill);
    assert data[..0] == [];
    StreamIsBits(input);
    BlocksExtend(s, [], t);
  }

  lemma FilledUp(bits: nat, s: nat, fill: nat)
    requires fill == (8 - bits % 8) % 8 && s % 8 == 0 && s <= bits
    ensures (bits + fill) % 8 == 0 && (bits - s + fill) % 8 == 0
  {
  }

  // ------------------------------------------------------------------
  // What is refused

  lemma {:induction false} KraftOfOnes(lens: Lengths)
    requires forall i :: 0 <= i < |lens| ==> lens[i] <= 1
    ensures Kraft(lens) == Count(lens, 1) * Pow2(BMAX - 1)
  {
    if lens != [] {
      KraftOfOnes(lens[..|lens| - 1]);
      MulDistributes(Count(lens[..|lens| - 1], 1), 1, Pow2(BMAX - 1));
    }
  }

  lemma SingleOne(lens: seq<nat>)
    requires (forall i :: 0 <= i < |lens| ==> lens[i] <= 1) && Count(lens, 1) == 1
    ensures exists k: nat :: OnlyOneBit(lens, k)
  {
    CountZero(lens, 1);
    var k :| 0 <= k < |lens| && lens[k] == 1;
    forall i | 0 <= i < |lens|
      ensures lens[i] == if i == k then 1 else 0
    {
      if i < k && lens[i] == 1 {
        RankOrder(lens, i, k);
        CountPrefix(lens, k, 1);
      } else if k < i && lens[i] == 1 {
        RankOrder(lens, k, i);
        CountPrefix(lens, i, 1);
      }
    }
    assert OnlyOneBit(lens, k);
  }

  /** The lengths that are accepted are those an encoder may use. */
  lemma UsableIff(lens: seq<nat>)
    requires forall i :: 0 <= i < |lens| ==> lens[i] <= 15
    ensures Usable(lens) <==> Decodable(lens)
  {
    hide Kraft, Count;
    if Usable(lens) {
      UsableDecodes(lens);
    } else if OneBitCode(lens) && !Oversubscribed(lens) {
      KraftOfOnes(lens);
      CountZero(lens, 1);
      OnesFit(Count(lens, 1));
      if Count(lens, 1) == 1 {
        SingleOne(lens);
      }
    }
  }

  lemma OnesFit(n: nat)
    requires n >= 1 && n * Pow2(BMAX - 1) <= Pow2(BMAX)
    ensures n == 1 || (n == 2 && n * Pow2(BMAX - 1) == Pow2(BMAX))
  {
    if n >= 3 {
      MulScale(3, n, Pow2(BMAX - 1));
    }
  }

  lemma {:induction false} SpeltBelow16(runs: seq<Run>, lens: seq<nat>, at: nat)
    requires AllSpell(runs, lens, at) && at <= |lens| && forall i :: 0 <= i < at ==> lens[i] <= 15
    ensures forall i :: 0 <= i < |lens| ==> lens[i] <= 15
    decreases |runs|
  {
    if runs != [] {
      SpeltBelow16(runs[1..], lens, at + RunSize(runs[0]));
    }
  }

  /** The codes of a dynamic block are accepted exactly if both are ones an encoder may use. */
  lemma HeaderIff(lit: seq<nat>, dist: seq<nat>, clens: seq<nat>, sent: nat, runs: seq<Run>, rest: seq<bool>)
    requires 257 <= |lit| <= 286 && 1 <= |dist| <= 30 && |clens| == 19 && 4 <= sent <= 19
    requires Usable(clens) && forall i :: 0 <= i < 19 ==> clens[i] <= 7
    requires forall j :: sent <= j < 19 ==> clens[SentAs(j)] == 0
    requires Spellable(clens, runs) && AllSpell(runs, lit + dist, 0)
    ensures RefHeader(LsbBits(|lit| - 257, 5) + (LsbBits(|dist| - 1, 5) + (LsbBits(sent - 4, 4)
                      + (OrderBits(clens, 0, sent) + (RunsBits(clens, runs) + rest)))))
            == if Usable(lit) && Usable(dist) then Done((lit, dist), rest) else Stuck
  {
    hide RefHeader, LsbBits, OrderBits, RunsBits, Usable, Decodable, SentAs, Spellable, AllSpell;
    HeaderRead(lit, dist, clens, sent, runs, rest);
    SpeltBelow16(runs, lit + dist, 0);
    forall i | 0 <= i < |lit|
      ensures lit[i] <= 15
    {
      assert (lit + dist)[i] == lit[i];
    }
    forall i | 0 <= i < |dist|
      ensures dist[i] <= 15
    {
      assert (lit + dist)[|lit| + i] == dist[i];
    }
    UsableIff(lit);
    UsableIff(dist);
  }

  /** So is the code that the lengths are sent with. */
  lemma LengthCodeRefused(hlit: nat, hdist: nat, clens: seq<nat>, sent: nat, rest: seq<bool>)
    requires hlit < 32 && hdist < 32 && |clens| == 19 && 4 <= sent <= 19
    requires !Usable(clens) && forall i :: 0 <= i < 19 ==> clens[i] <= 7
    requires forall j :: sent <= j < 19 ==> clens[SentAs(j)] == 0
    ensures RefHeader(LsbBits(hlit, 5) + (LsbBits(hdist, 5) + (LsbBits(sent - 4, 4)
                      + (OrderBits(clens, 0, sent) + rest)))) == Stuck
  {
    hide RefNum, LsbBits, RefOrder, RefLengths, OrderBits, Usable, Decodable, SentAs;
    PowersUpTo14();
    var order := OrderBits(clens, 0, sent) + rest;
    NumberRead(hlit, 5, LsbBits(hdist, 5) + (LsbBits(sent - 4, 4) + order));
    NumberRead(hdist, 5, LsbBits(sent - 4, 4) + order);
    NumberRead(sent - 4, 4, order);
    AllReceived(clens, sent);
    OrderRead(clens, 0, sent, rest);
    UsableIff(clens);
  }

  /** More than 286 literal and length codes, or more than 30 distance codes, are refused. */
  lemma CountsRefused(hlit: nat, hdist: nat, rest: seq<bool>)
    requires hlit < 32 && hdist < 32 && (257 + hlit > 286 || 1 + hdist > 30)
    ensures RefHeader(LsbBits(hlit, 5) + (LsbBits(hdist, 5) + rest)) == Stuck
  {
    hide RefNum, LsbBits;
    PowersUpTo14();
    NumberRead(hlit, 5, LsbBits(hdist, 5) + rest);
    NumberRead(hdist, 5, rest);
  }

  /** Stored bytes whose number is not repeated in complement are refused. */
  lemma ComplementRefused(pad: seq<bool>, n: nat, m: nat, rest: seq<bool>, out: seq<byte>)
    requires |pad| < 8 && |rest| % 8 == 0 && n < 65536 && m < 65536 && n + m != 65535
    ensures RefStored(pad + (LsbBits(n, 16) + (LsbBits(m, 16) + rest)), out) == Stuck
  {
    hide RefNum, LsbBits, RefBytes, Align, Pow2;
    Sixteen();
    Whole(|LsbBits(n, 16) + (LsbBits(m, 16) + rest)|, 0, |rest|);
    AlignSkips(pad, LsbBits(n, 16) + (LsbBits(m, 16) + rest));
    NumberRead(n, 16, LsbBits(m, 16) + rest);
    NumberRead(m, 16, rest);
  }

  /** Block type 3 is refused. */
  lemma ReservedTypeRefused(last: bool, rest: seq<bool>, out: seq<byte>)
    ensures RefBlock([last] + ([true, true] + rest), out) == Stuck
  {
    hide RefNum;
    FlagRead(last, [true, true] + rest);
    ReservedType(rest);
  }

  lemma ReservedType(rest: seq<bool>)
    ensures RefNum([true, true] + rest, 2) == Done(3, rest)
  {
    var t := [true, true];
    assert (t + rest)[..2] == t && (t + rest)[2..] == rest;
    assert t[1..] == [true] && t[1..][1..] == [];
    assert Lsb(t) == 1 + 2 * Lsb([true]) && Lsb([true]) == 1 + 2 * Lsb([]);
  }

  /** A code for a symbol above those for lengths is refused. */
  lemma HighSymbolRefused(lit: Lengths, dist: Lengths, sym: nat, rest: seq<bool>, out: seq<byte>)
    requires |dist| <= 30 && !Oversubscribed(lit) && Used(lit, sym) && sym >= 286
    ensures RefCodes(lit, dist, Code(lit, sym) + rest, out) == Stuck
  {
    hide RefSym, Code, Oversubscribed;
    SymbolRead(lit, sym, rest);
  }
}

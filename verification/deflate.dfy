/**
 A reference decoder for the DEFLATE format (RFC 1951) on a plain list of bits.
 It names no buffer, table or window: codes are read by their definition in
 section 3.2.2, and copies look back in everything output so far.
 */
module Deflate {
  import opened Basics
  import opened Bits
  import opened Huffman


  /** A value and the bits not yet used, or Stuck: invalid data or no bits left. */
  datatype Ref<+T> = Done(value: T, rest: seq<bool>) | Stuck {
    predicate IsFailure() { Stuck? }
    function PropagateFailure<U>(): Ref<U>
      requires Stuck?
    { Stuck }
    function Extract(): (T, seq<bool>)
      requires Done?
    { (value, rest) }
  }

  /** The bits of a byte sequence, least significant bit of each byte first. */
  function BitsOf(bytes: seq<byte>): (s: seq<bool>)
    ensures |s| == 8 * |bytes|
  {
    if bytes == [] then [] else LsbBits(bytes[0], 8) + BitsOf(bytes[1..])
  }

  /** An n-bit number. */
  function RefNum(rest: seq<bool>, n: nat): (r: Ref<nat>)
    ensures r.Done? ==> |r.rest| + n == |rest| && r.value < Pow2(n)
  {
    if |rest| < n then Stuck else Done(Lsb(rest[..n]), rest[n..])
  }

  /** One symbol of the code with these lengths. */
  ghost function RefSym(lens: seq<nat>, rest: seq<bool>): (r: Ref<nat>)
    ensures r.Done? ==> |r.rest| < |rest| && r.value < |lens|
  {
    match RefSymbol(lens, rest)
    case None => Stuck
    case Some(sym) => Done(sym, rest[lens[sym]..])
  }

  /** Drop the bits up to the next byte boundary. */
  function Align(rest: seq<bool>): (r: seq<bool>)
    ensures |r| % 8 == 0 && |r| <= |rest| < |r| + 8
  {
    rest[|rest| % 8..]
  }

  // ------------------------------------------------------------------
  // Constants of section 3.2.5; entries 29 and 30 of the length tables are not in the RFC

  const LENGTH_BASE: seq<nat> := [
    3, 4, 5, 6, 7, 8, 9, 10, 11, 13, 15, 17, 19, 23, 27, 31,
    35, 43, 51, 59, 67, 83, 99, 115, 131, 163, 195, 227, 258, 0, 0]
  const LENGTH_EXTRA: seq<nat> := [
    0, 0, 0, 0, 0, 0, 0, 0, 1, 1, 1, 1, 2, 2, 2, 2,
    3, 3, 3, 3, 4, 4, 4, 4, 5, 5, 5, 5, 0, 99, 99]
  const DISTANCE_BASE: seq<nat> := [
    1, 2, 3, 4, 5, 7, 9, 13, 17, 25, 33, 49, 65, 97, 129, 193,
    257, 385, 513, 769, 1025, 1537, 2049, 3073, 4097, 6145,
    8193, 12289, 16385, 24577]
  const DISTANCE_EXTRA: seq<nat> := [
    0, 0, 0, 0, 1, 1, 2, 2, 3, 3, 4, 4, 5, 5, 6, 6,
    7, 7, 8, 8, 9, 9, 10, 10, 11, 11,
    12, 12, 13, 13]
  const LENGTH_ORDER: seq<nat> := [16, 17, 18, 0, 8, 7, 9, 6, 10, 5, 11, 4, 12, 3, 13, 2, 14, 1, 15]

  /** Which code length the j-th of the lengths sent is for. */
  function Order(j: nat): (i: nat)
    requires j < 19
    ensures i < 19
  {
    LENGTH_ORDER[j]
  }

  // ------------------------------------------------------------------
  // Copies

  /** The byte `dist` back; before the start of the output all bytes are zero. */
  function Back(out: seq<byte>, dist: nat): byte
    requires dist >= 1
  {
    if dist <= |out| then out[|out| - dist] else 0
  }

  /** Append `n` bytes, each the one `dist` back at that time. */
  function Copy(out: seq<byte>, dist: nat, n: nat): (r: seq<byte>)
    requires dist >= 1
    ensures |r| == |out| + n
    decreases n
  {
    if n == 0 then out else Copy(out + [Back(out, dist)], dist, n - 1)
  }

  /** The output after a copy repeats itself `dist` further back (section 3.2.3). */
  lemma {:induction false} CopyRepeats(out: seq<byte>, dist: nat, n: nat, i: nat)
    requires 1 <= dist <= |out| && i < n
    ensures out <= Copy(out, dist, n)
    ensures Copy(out, dist, n)[|out| + i] == Copy(out, dist, n)[|out| + i - dist]
    decreases n
  {
    var out' := out + [Back(out, dist)];
    CopyExtends(out', dist, n - 1);
    if i > 0 {
      CopyRepeats(out', dist, n - 1, i - 1);
    }
  }

  lemma {:induction false} CopyExtends(out: seq<byte>, dist: nat, n: nat)
    requires dist >= 1
    ensures out <= Copy(out, dist, n)
    decreases n
  {
    if n > 0 {
      CopyExtends(out + [Back(out, dist)], dist, n - 1);
    }
  }

  // ------------------------------------------------------------------
  // Blocks

  /** A length or distance: its base value plus the extra bits that follow. */
  function RefValue(base: nat, extra: nat, rest: seq<bool>): (r: Ref<nat>)
    ensures r.Done? ==> |r.rest| <= |rest| && base <= r.value < base + Pow2(extra)
  {
    var (x, rest1) :- RefNum(rest, extra);
    Done(base + x, rest1)
  }

  function RefLength(sym: nat, rest: seq<bool>): (r: Ref<nat>)
    requires 257 <= sym < 286
    ensures r.Done? ==> |r.rest| <= |rest| && r.value >= 3
  {
    LengthsStartAt3(sym - 257);
    RefValue(LENGTH_BASE[sym - 257], LENGTH_EXTRA[sym - 257], rest)
  }

  ghost function RefDistance(dist: seq<nat>, rest: seq<bool>): (r: Ref<nat>)
    requires |dist| <= 30
    ensures r.Done? ==> |r.rest| <= |rest| && 1 <= r.value <= 32768
  {
    var (ds, rest1) :- RefSym(dist, rest);
    RefBack(ds, rest1)
  }

  /** The distance a distance symbol stands for. */
  function RefBack(ds: nat, rest: seq<bool>): (r: Ref<nat>)
    requires ds < 30
    ensures r.Done? ==> |r.rest| <= |rest| && 1 <= r.value <= 32768
  {
    DistancesUpTo32768(ds);
    RefValue(DISTANCE_BASE[ds], DISTANCE_EXTRA[ds], rest)
  }

  /** Length and distance of a copy whose length symbol is already read. */
  ghost function RefCopy(sym: nat, dist: seq<nat>, rest: seq<bool>): (r: Ref<(nat, nat)>)
    requires 257 <= sym < 286 && |dist| <= 30
    ensures r.Done? ==> |r.rest| <= |rest| && r.value.0 >= 3 && 1 <= r.value.1 <= 32768
  {
    var (n, rest1) :- RefLength(sym, rest);
    var (d, rest2) :- RefDistance(dist, rest1);
    Done((n, d), rest2)
  }

  /** Symbols up to the end of block; `out` is all output so far. */
  ghost function RefCodes(lit: seq<nat>, dist: seq<nat>, rest: seq<bool>, out: seq<byte>): (r: Ref<seq<byte>>)
    requires |dist| <= 30
    ensures r.Done? ==> |r.rest| < |rest|
    decreases |rest|
  {
    var (sym, rest1) :- RefSym(lit, rest);
    if sym < 256 then RefCodes(lit, dist, rest1, out + [sym as byte])
    else if sym == 256 then Done(out, rest1)
    else if sym >= 286 then Stuck
    else
      var (nd, rest2) :- RefCopy(sym, dist, rest1);
      RefCodes(lit, dist, rest2, Copy(out, nd.1, nd.0))
  }

  function RefBytes(n: nat, rest: seq<bool>, out: seq<byte>): (r: Ref<seq<byte>>)
    ensures r.Done? ==> |r.rest| <= |rest|
    decreases n
  {
    if n == 0 then Done(out, rest)
    else
      var (x, rest1) :- RefNum(rest, 8);
      assert Pow2(8) == 256;
      RefBytes(n - 1, rest1, out + [x as byte])
  }

  function RefStored(rest: seq<bool>, out: seq<byte>): (r: Ref<seq<byte>>)
    ensures r.Done? ==> |r.rest| <= |rest|
  {
    var (len, rest1) :- RefNum(Align(rest), 16);
    var (nlen, rest2) :- RefNum(rest1, 16);
    if len + nlen != 65535 then Stuck else RefBytes(len, rest2, out)
  }

  function Repeat(l: nat, n: nat): seq<nat> {
    seq(n, _ => l)
  }

  const FIXED_LITERALS: seq<nat> := Repeat(8, 144) + Repeat(9, 112) + Repeat(7, 24) + Repeat(8, 8)
  const FIXED_DISTANCES: seq<nat> := Repeat(5, 30)

  ghost function RefFixed(rest: seq<bool>, out: seq<byte>): (r: Ref<seq<byte>>)
    ensures r.Done? ==> |r.rest| <= |rest|
  {
    RefCodes(FIXED_LITERALS, FIXED_DISTANCES, rest, out)
  }

  /** The lengths of the code length code, three bits each, in their own order. */
  function RefOrder(n: nat, j: nat, rest: seq<bool>, lens: seq<nat>): (r: Ref<seq<nat>>)
    requires j <= n <= 19 == |lens|
    ensures r.Done? ==> |r.rest| <= |rest| && |r.value| == 19
    decreases n - j
  {
    if j == n then Done(lens, rest)
    else
      var (l, rest1) :- RefNum(rest, 3);
      RefOrder(n, j + 1, rest1, lens[Order(j) := l])
  }

  /** The run a code length symbol stands for: which length, how often. */
  function RefRun(sym: nat, rest: seq<bool>, acc: seq<nat>): (r: Ref<seq<nat>>)
    requires sym < 19
    ensures r.Done? ==> |r.rest| <= |rest|
  {
    if sym < 16 then Done([sym], rest)
    else if sym == 16 then
      var (x, rest1) :- RefNum(rest, 2);
      Done(Repeat(if acc == [] then 0 else acc[|acc| - 1], 3 + x), rest1)
    else if sym == 17 then
      var (x, rest1) :- RefNum(rest, 3);
      Done(Repeat(0, 3 + x), rest1)
    else
      var (x, rest1) :- RefNum(rest, 7);
      Done(Repeat(0, 11 + x), rest1)
  }

  /** n code lengths, compressed with the code length code. */
  ghost function RefLengths(clens: seq<nat>, n: nat, rest: seq<bool>, acc: seq<nat>): (r: Ref<seq<nat>>)
    requires |clens| == 19
    ensures r.Done? ==> |r.rest| <= |rest| && |r.value| == n
    decreases |rest|
  {
    if |acc| == n then Done(acc, rest)
    else if |acc| > n then Stuck
    else
      var (sym, rest1) :- RefSym(clens, rest);
      var (run, rest2) :- RefRun(sym, rest1, acc);
      RefLengths(clens, n, rest2, acc + run)
  }

  /** The sets of lengths that are decoded with: complete, one code of one bit, or none at all. */
  predicate Acceptable(lens: Lengths) {
    AllUnused(lens) || Complete(lens) || (OneBitCode(lens) && !Oversubscribed(lens))
  }

  predicate InRange(lens: seq<nat>) {
    forall i :: 0 <= i < |lens| ==> lens[i] <= BMAX
  }

  predicate Decodable(lens: seq<nat>) {
    InRange(lens) && Acceptable(lens)
  }

  /** How many literal, distance and code length code lengths follow. */
  function RefCounts(rest: seq<bool>): (r: Ref<(nat, nat, nat)>)
    ensures r.Done? ==>
      && |r.rest| <= |rest|
      && 257 <= r.value.0 <= 286 && 1 <= r.value.1 <= 30 && 4 <= r.value.2 <= 19
  {
    var (hlit, rest1) :- RefNum(rest, 5);
    var (hdist, rest2) :- RefNum(rest1, 5);
    var (hclen, rest3) :- RefNum(rest2, 4);
    assert Pow2(4) == 16;
    if 257 + hlit > 286 || 1 + hdist > 30 then Stuck else Done((257 + hlit, 1 + hdist, 4 + hclen), rest3)
  }

  /** n code lengths, after the nb lengths of the code they are compressed with. */
  ghost function RefAllLengths(n: nat, nb: nat, rest: seq<bool>): (r: Ref<seq<nat>>)
    requires nb <= 19
    ensures r.Done? ==> |r.rest| <= |rest| && |r.value| == n
  {
    var (clens, rest1) :- RefOrder(nb, 0, rest, Repeat(0, 19));
    if Decodable(clens) then RefLengths(clens, n, rest1, []) else Stuck
  }

  /** The two codes of a dynamic block. */
  ghost function RefHeader(rest: seq<bool>): (r: Ref<(seq<nat>, seq<nat>)>)
    ensures r.Done? ==> |r.rest| <= |rest| && |r.value.1| <= 30
  {
    var (counts, rest1) :- RefCounts(rest);
    var (lens, rest2) :- RefAllLengths(counts.0 + counts.1, counts.2, rest1);
    if Decodable(lens[..counts.0]) && Decodable(lens[counts.0..]) then Done((lens[..counts.0], lens[counts.0..]), rest2)
    else Stuck
  }

  ghost function RefDynamic(rest: seq<bool>, out: seq<byte>): (r: Ref<seq<byte>>)
    ensures r.Done? ==> |r.rest| <= |rest|
  {
    var (codes, rest1) :- RefHeader(rest);
    RefCodes(codes.0, codes.1, rest1, out)
  }

  /** One block: whether it is the last, and the output after it. */
  ghost function RefBlock(rest: seq<bool>, out: seq<byte>): (r: Ref<(bool, seq<byte>)>)
    ensures r.Done? ==> |r.rest| < |rest|
  {
    var (last, rest1) :- RefNum(rest, 1);
    var (kind, rest2) :- RefNum(rest1, 2);
    var (out', rest3) :-
      if kind == 0 then RefStored(rest2, out)
      else if kind == 1 then RefFixed(rest2, out)
      else if kind == 2 then RefDynamic(rest2, out)
      else Stuck;
    Done((last == 1, out'), rest3)
  }

  /** Blocks up to and including the last one. */
  ghost function RefBlocks(rest: seq<bool>, out: seq<byte>): (r: Ref<seq<byte>>)
    ensures r.Done? ==> |r.rest| <= |rest|
    decreases |rest|
  {
    var (block, rest1) :- RefBlock(rest, out);
    if block.0 then Done(block.1, rest1) else RefBlocks(rest1, block.1)
  }

  ghost function RefInflate(bytes: seq<byte>): Ref<seq<byte>> {
    RefBlocks(BitsOf(bytes), [])
  }

  // ------------------------------------------------------------------
  // The length and distance ranges cover every value once

  lemma LengthRangesTile(i: nat)
    requires i < 27
    ensures LENGTH_BASE[i] + Pow2(LENGTH_EXTRA[i]) == LENGTH_BASE[i + 1]
  {
    PowersUpTo14();
  }

  lemma DistanceRangesTile(i: nat)
    requires i < 30
    ensures DISTANCE_BASE[i] + Pow2(DISTANCE_EXTRA[i]) == if i < 29 then DISTANCE_BASE[i + 1] else 32769
  {
    PowersUpTo14();
  }

  lemma LengthsStartAt3(i: nat)
    requires i < 29
    ensures LENGTH_BASE[i] >= 3
  {
  }

  lemma DistancesUpTo32768(i: nat)
    requires i < 30
    ensures 1 <= DISTANCE_BASE[i] && DISTANCE_BASE[i] + Pow2(DISTANCE_EXTRA[i]) <= 32769
  {
    DistanceRangesTile(i);
  }

  lemma PowersUpTo14()
    ensures Pow2(0) == 1 && Pow2(1) == 2 && Pow2(2) == 4 && Pow2(3) == 8 && Pow2(4) == 16 && Pow2(5) == 32
    ensures Pow2(6) == 64 && Pow2(7) == 128 && Pow2(8) == 256 && Pow2(9) == 512 && Pow2(10) == 1024
    ensures Pow2(11) == 2048 && Pow2(12) == 4096 && Pow2(13) == 8192 && Pow2(14) == 16384
  {
  }
}

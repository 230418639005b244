/**
 What a DEFLATE stream is, from the side of whoever writes one (RFC 1951): blocks of stored
 bytes, or of literals and copies under the fixed codes or under codes sent along, and what
 data they stand for. Nothing here reads a bit.
 */
module Encoder {
  import opened Basics
  import opened Bits
  import opened Huffman

  // ------------------------------------------------------------------
  // Literals and copies

  datatype Token = Literal(b: byte) | Match(n: nat, dist: nat)

  /** Lengths are from 3 to 258, distances from 1 to 32768. */
  predicate Valid(t: Token) {
    t.Match? ==> 3 <= t.n <= 258 && 1 <= t.dist <= 32768
  }

  /** The bytes a token stands for. */
  function Size(t: Token): nat {
    if t.Literal? then 1 else t.n
  }

  function Sizes(tokens: seq<Token>): nat {
    if tokens == [] then 0 else Size(tokens[0]) + Sizes(tokens[1..])
  }

  /** The token stands for the bytes of `data` from `at` on: a copy repeats what is `dist` before it. */
  ghost predicate Means(t: Token, data: seq<byte>, at: nat) {
    && Valid(t) && at + Size(t) <= |data|
    && match t
       case Literal(b) => data[at] == b
       case Match(n, dist) => dist <= at && forall i :: at <= i < at + n ==> data[i] == data[i - dist]
  }

  ghost predicate AllMean(tokens: seq<Token>, data: seq<byte>, at: nat) {
    tokens == [] || (Means(tokens[0], data, at) && AllMean(tokens[1..], data, at + Size(tokens[0])))
  }

  // ------------------------------------------------------------------
  // Section 3.2.5: the symbols for lengths and distances

  /** How often m has to be halved to get below a limit: the number of extra bits. */
  function Halvings(m: nat, limit: nat): nat
    requires limit >= 1
  {
    if m < limit then 0 else 1 + Halvings(m / 2, limit)
  }

  /**
   Of what a value is above the least one, the highest bits choose the symbol and the others
   follow it: the symbols go in rows of four for each number of extra bits.
   */
  datatype Split = Split(sym: nat, bits: nat, extra: nat)

  function LengthSplit(n: nat): Split
    requires 3 <= n <= 258
  {
    if n == 258 then Split(285, 0, 0)
    else
      var e := Halvings(n - 3, 8);
      Split(257 + 4 * e + (n - 3) / Pow2(e), e, (n - 3) % Pow2(e))
  }

  function DistanceSplit(d: nat): Split
    requires 1 <= d <= 32768
  {
    var e := Halvings(d - 1, 4);
    Split(2 * e + (d - 1) / Pow2(e), e, (d - 1) % Pow2(e))
  }

  // ------------------------------------------------------------------
  // Codes

  /** The fixed codes of section 3.2.6, or the canonical codes with the given lengths. */
  datatype Coding = FixedCodes | Canonical(lit: seq<nat>, dist: seq<nat>)

  const END_OF_BLOCK: nat := 256

  function FixedCode(sym: nat): seq<bool>
    requires sym < 288
  {
    if sym < 144 then MsbBits(0x30 + sym, 8)
    else if sym < 256 then MsbBits(0x190 + (sym - 144), 9)
    else if sym < 280 then MsbBits(sym - 256, 7)
    else MsbBits(0xC0 + (sym - 280), 8)
  }

  /** Every symbol the token needs has a code. */
  predicate Sends(c: Coding, t: Token)
    requires Valid(t)
  {
    c.FixedCodes?
    || match t
       case Literal(b) => Used(c.lit, b)
       case Match(n, d) => Used(c.lit, LengthSplit(n).sym) && Used(c.dist, DistanceSplit(d).sym)
  }

  predicate SendsAll(c: Coding, tokens: seq<Token>) {
    && (c.Canonical? ==> Used(c.lit, END_OF_BLOCK))
    && forall i :: 0 <= i < |tokens| ==> Valid(tokens[i]) && Sends(c, tokens[i])
  }

  function LiteralCode(c: Coding, sym: nat): seq<bool>
    requires if c.FixedCodes? then sym < 288 else Used(c.lit, sym)
  {
    if c.FixedCodes? then FixedCode(sym) else Code(c.lit, sym)
  }

  function DistanceCode(c: Coding, sym: nat): seq<bool>
    requires c.FixedCodes? || Used(c.dist, sym)
  {
    if c.FixedCodes? then MsbBits(sym, 5) else Code(c.dist, sym)
  }

  /** The symbols of a token and their extra bits, these with the lowest first. */
  function TokenBits(c: Coding, t: Token): seq<bool>
    requires Valid(t) && Sends(c, t)
  {
    match t
    case Literal(b) => LiteralCode(c, b)
    case Match(n, d) =>
      var (l, m) := (LengthSplit(n), DistanceSplit(d));
      LengthBelow(n);
      LiteralCode(c, l.sym) + (LsbBits(l.extra, l.bits) + (DistanceCode(c, m.sym) + LsbBits(m.extra, m.bits)))
  }

  function TokensBits(c: Coding, tokens: seq<Token>): seq<bool>
    requires SendsAll(c, tokens)
  {
    if tokens == [] then LiteralCode(c, END_OF_BLOCK)
    else TokenBits(c, tokens[0]) + TokensBits(c, tokens[1..])
  }

  lemma {:induction false} HalvedOften(m: nat, limit: nat, e: nat)
    requires limit >= 1 && m < limit * Pow2(e)
    ensures Halvings(m, limit) <= e && m / Pow2(Halvings(m, limit)) < limit
    ensures Halvings(m, limit) > 0 ==> m / Pow2(Halvings(m, limit)) >= limit / 2
    decreases e
  {
    if m >= limit {
      HalvedOften(m / 2, limit, e - 1);
      HalvedTwice(m, Pow2(Halvings(m / 2, limit)));
    }
  }

  lemma HalvedTwice(m: nat, p: nat)
    requires p >= 1
    ensures m / (2 * p) == m / 2 / p
  {
    var q, r := m / 2 / p, m / 2 % p;
    assert m / 2 == q * p + r;
    assert m == (2 * p) * q + (2 * r + m % 2);
    DivModUnique(m, 2 * p, q, 2 * r + m % 2);
  }

  lemma LengthBelow(n: nat)
    requires 3 <= n <= 258
    ensures 257 <= LengthSplit(n).sym < 286 && LengthSplit(n).bits <= 5
  {
    if n < 258 {
      assert Pow2(5) == 32;
      HalvedOften(n - 3, 8, 5);
    }
  }

  // ------------------------------------------------------------------
  // Section 3.2.7: code lengths, sent in runs

  /** One length; the one before again, 3 to 6 times; 3 to 10 zeros; 11 to 138 zeros. */
  datatype Run = Length(l: nat) | Again(n: nat) | FewZeros(n: nat) | ManyZeros(n: nat)

  predicate ValidRun(r: Run) {
    match r
    case Length(l) => l <= 15
    case Again(n) => 3 <= n <= 6
    case FewZeros(n) => 3 <= n <= 10
    case ManyZeros(n) => 11 <= n <= 138
  }

  function RunSize(r: Run): nat {
    if r.Length? then 1 else r.n
  }

  function RunSymbol(r: Run): nat {
    match r
    case Length(l) => l
    case Again(_) => 16
    case FewZeros(_) => 17
    case ManyZeros(_) => 18
  }

  function RunExtra(r: Run): seq<bool>
    requires ValidRun(r)
  {
    match r
    case Length(_) => []
    case Again(n) => LsbBits(n - 3, 2)
    case FewZeros(n) => LsbBits(n - 3, 3)
    case ManyZeros(n) => LsbBits(n - 11, 7)
  }

  /** The run gives the lengths from `at` on. */
  ghost predicate Spells(r: Run, lens: seq<nat>, at: nat) {
    && ValidRun(r) && at + RunSize(r) <= |lens|
    && match r
       case Length(l) => lens[at] == l
       case Again(n) => at > 0 && forall i :: at <= i < at + n ==> lens[i] == lens[at - 1]
       case FewZeros(n) => forall i :: at <= i < at + n ==> lens[i] == 0
       case ManyZeros(n) => forall i :: at <= i < at + n ==> lens[i] == 0
  }

  /** The runs give all lengths from `at` on. */
  ghost predicate AllSpell(runs: seq<Run>, lens: seq<nat>, at: nat) {
    if runs == [] then at == |lens|
    else Spells(runs[0], lens, at) && AllSpell(runs[1..], lens, at + RunSize(runs[0]))
  }

  /** The runs only use symbols that the code for the lengths has. */
  predicate Spellable(clens: seq<nat>, runs: seq<Run>) {
    forall i :: 0 <= i < |runs| ==> ValidRun(runs[i]) && Used(clens, RunSymbol(runs[i]))
  }

  function RunsBits(clens: seq<nat>, runs: seq<Run>): seq<bool>
    requires Spellable(clens, runs)
  {
    if runs == [] then []
    else Code(clens, RunSymbol(runs[0])) + RunExtra(runs[0]) + RunsBits(clens, runs[1..])
  }

  /** The order in which the lengths of the code for the lengths are sent. */
  const CODE_ORDER: seq<nat> := [16, 17, 18, 0, 8, 7, 9, 6, 10, 5, 11, 4, 12, 3, 13, 2, 14, 1, 15]

  /** Which of the lengths is sent as the j-th. */
  function SentAs(j: nat): (i: nat)
    requires j < 19
    ensures i < 19
  {
    CODE_ORDER[j]
  }

  /** From the j-th to before the n-th of them, three bits each. */
  function OrderBits(clens: seq<nat>, j: nat, n: nat): seq<bool>
    requires |clens| == 19 && j <= n <= 19
    decreases n - j
  {
    if j == n then [] else LsbBits(clens[SentAs(j)], 3) + OrderBits(clens, j + 1, n)
  }

  // ------------------------------------------------------------------
  // Section 3.2.3: blocks

  /**
   pad: whatever fills the byte before stored bytes. sent: how many of the lengths of the code
   for the lengths are sent.
   */
  datatype Block =
    | Stored(bytes: seq<byte>, pad: seq<bool>)
    | Fixed(tokens: seq<Token>)
    | Dynamic(lit: seq<nat>, dist: seq<nat>, clens: seq<nat>, sent: nat, runs: seq<Run>, tokens: seq<Token>)

  /** A set of lengths that makes a code: complete, or a single code of one bit, or none. */
  ghost predicate Usable(lens: seq<nat>) {
    && (forall i :: 0 <= i < |lens| ==> lens[i] <= 15)
    && (|| Complete(lens)
        || (forall i :: 0 <= i < |lens| ==> lens[i] == 0)
        || (exists k: nat :: OnlyOneBit(lens, k)))
  }

  /** The k-th symbol has a code of one bit, and no other has one. */
  predicate OnlyOneBit(lens: seq<nat>, k: nat) {
    k < |lens| && forall i :: 0 <= i < |lens| ==> lens[i] == if i == k then 1 else 0
  }

  ghost predicate Writable(b: Block) {
    match b
    case Stored(bytes, pad) => |bytes| <= 65535
    case Fixed(tokens) => SendsAll(FixedCodes, tokens)
    case Dynamic(lit, dist, clens, sent, runs, tokens) =>
      && 257 <= |lit| <= 286 && 1 <= |dist| <= 30 && |clens| == 19 && 4 <= sent <= 19
      && Usable(lit) && Usable(dist) && Usable(clens)
      && (forall i :: 0 <= i < 19 ==> clens[i] <= 7)
      && (forall j :: sent <= j < 19 ==> clens[SentAs(j)] == 0)
      && Spellable(clens, runs) && AllSpell(runs, lit + dist, 0)
      && SendsAll(Canonical(lit, dist), tokens)
  }

  /** The i-th binary digit from below. */
  predicate DigitAt(x: nat, i: nat) {
    (x / Pow2(i)) % 2 == 1
  }

  /** The bits of a byte sequence in stream order: each byte from its lowest bit up. */
  function StreamBits(bytes: seq<byte>): (s: seq<bool>)
    ensures |s| == 8 * |bytes|
  {
    seq(8 * |bytes|, i requires 0 <= i < 8 * |bytes| => DigitAt(bytes[i / 8], i % 8))
  }

  ghost function BodyBits(b: Block): seq<bool>
    requires Writable(b)
  {
    match b
    case Stored(bytes, pad) =>
      pad + (LsbBits(|bytes|, 16) + (LsbBits(65535 - |bytes|, 16) + StreamBits(bytes)))
    case Fixed(tokens) => TokensBits(FixedCodes, tokens)
    case Dynamic(lit, dist, clens, sent, runs, tokens) =>
      LsbBits(|lit| - 257, 5) + (LsbBits(|dist| - 1, 5) + (LsbBits(sent - 4, 4)
      + (OrderBits(clens, 0, sent) + (RunsBits(clens, runs) + TokensBits(Canonical(lit, dist), tokens)))))
  }

  /** The block types 0, 1 and 2 in two bits, the lower first. */
  function TypeBits(b: Block): seq<bool> {
    match b
    case Stored(_, _) => [false, false]
    case Fixed(_) => [true, false]
    case Dynamic(_, _, _, _, _, _) => [false, true]
  }

  ghost function BlockBits(b: Block, last: bool): seq<bool>
    requires Writable(b)
  {
    [last] + (TypeBits(b) + BodyBits(b))
  }

  /** Stored bytes begin on a byte boundary; `pos` bits are before the block. */
  predicate OnBoundary(b: Block, pos: nat) {
    b.Stored? ==> |b.pad| < 8 && (pos + 3 + |b.pad|) % 8 == 0
  }

  ghost predicate AllWritable(blocks: seq<Block>, pos: nat)
    decreases |blocks|
  {
    && |blocks| > 0 && Writable(blocks[0]) && OnBoundary(blocks[0], pos)
    && (|blocks| > 1 ==> AllWritable(blocks[1..], pos + |BlockBits(blocks[0], false)|))
  }

  /** The last block, and no other, is marked as the last. */
  ghost function BlocksBits(blocks: seq<Block>, pos: nat): seq<bool>
    requires AllWritable(blocks, pos)
    decreases |blocks|
  {
    hide Writable, OnBoundary, BlockBits;
    if |blocks| == 1 then BlockBits(blocks[0], true)
    else
      var b := BlockBits(blocks[0], false);
      b + BlocksBits(blocks[1..], pos + |b|)
  }

  function BlockSize(b: Block): nat {
    if b.Stored? then |b.bytes| else Sizes(b.tokens)
  }

  ghost predicate BlockMeans(b: Block, data: seq<byte>, at: nat) {
    match b
    case Stored(bytes, _) => at + |bytes| <= |data| && data[at..at + |bytes|] == bytes
    case _ => AllMean(b.tokens, data, at)
  }

  /** The blocks stand for all of the data from `at` on. */
  ghost predicate BlocksMean(blocks: seq<Block>, data: seq<byte>, at: nat) {
    if blocks == [] then at == |data|
    else BlockMeans(blocks[0], data, at) && BlocksMean(blocks[1..], data, at + BlockSize(blocks[0]))
  }
}

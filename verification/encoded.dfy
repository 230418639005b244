/**
 The reference decoder undoes every encoding: whatever data the blocks of a stream stand for,
 RefInflate gives that data and stops where the last block ends.
 */
module Encoded {
  import opened Basics
  import opened Bits
  import opened Huffman
  import opened Deflate
  import opened Encoder
  import FixedTables = FixedCodes

  // ------------------------------------------------------------------
  // Bits and numbers

  lemma DigitBelow(x: nat, i: nat)
    ensures DigitAt(x, 0) <==> x % 2 == 1
    ensures i > 0 ==> DigitAt(x, i) == DigitAt(x / 2, i - 1)
  {
    if i > 0 {
      HalvedTwice(x, Pow2(i - 1));
    } else {
      assert Pow2(0) == 1;
    }
  }

  lemma {:induction false} LsbBitAt(x: nat, n: nat, i: nat)
    requires i < n
    ensures LsbBits(x, n)[i] == DigitAt(x, i)
    decreases n
  {
    hide DigitAt;
    DigitBelow(x, i);
    DigitBelow(x, 0);
    if i > 0 {
      LsbBitAt(x / 2, n - 1, i - 1);
    }
  }

  lemma {:induction false} StreamAt(bytes: seq<byte>, i: nat)
    requires i < 8 * |bytes|
    ensures BitsOf(bytes)[i] == DigitAt(bytes[i / 8], i % 8)
    decreases |bytes|
  {
    hide DigitAt, LsbBits;
    if i < 8 {
      LsbBitAt(bytes[0], 8, i);
    } else {
      NextByteAt(i);
      StreamAt(bytes[1..], i - 8);
    }
  }

  lemma StreamIsBits(bytes: seq<byte>)
    ensures StreamBits(bytes) == BitsOf(bytes)
  {
    hide BitsOf, DigitAt;
    forall i | 0 <= i < 8 * |bytes|
      ensures StreamBits(bytes)[i] == BitsOf(bytes)[i]
    {
      StreamAt(bytes, i);
    }
  }

  lemma NextByteAt(i: nat)
    requires i >= 8
    ensures (i - 8) / 8 == i / 8 - 1 && (i - 8) % 8 == i % 8
  {
  }

  lemma NumberRead(x: nat, n: nat, rest: seq<bool>)
    requires x < Pow2(n)
    ensures RefNum(LsbBits(x, n) + rest, n) == Done(x, rest)
  {
    LsbOfBits(x, n);
    var s := LsbBits(x, n) + rest;
    assert s[..n] == LsbBits(x, n) && s[n..] == rest;
  }

  lemma SymbolRead(lens: Lengths, sym: nat, rest: seq<bool>)
    requires Used(lens, sym) && !Oversubscribed(lens)
    ensures RefSym(lens, Code(lens, sym) + rest) == Done(sym, rest)
  {
    hide Oversubscribed;
    DecodeOfCode(lens, sym, rest);
    var s := Code(lens, sym) + rest;
    assert s[lens[sym]..] == rest;
  }

  // ------------------------------------------------------------------
  // The fixed codes

  lemma {:induction false} CountSum(a: seq<nat>, b: seq<nat>, l: nat)
    ensures Count(a + b, l) == Count(a, l) + Count(b, l)
    decreases |b|
  {
    if b == [] {
      assert a + b == a;
    } else {
      var m := |b| - 1;
      CountSum(a, b[..m], l);
      assert (a + b)[..|a + b| - 1] == a + b[..m];
    }
  }

  lemma {:induction false} CountSame(x: nat, n: nat, l: nat)
    ensures Count(Repeat(x, n), l) == if x == l then n else 0
    decreases n
  {
    if n > 0 {
      CountSame(x, n - 1, l);
      assert Repeat(x, n)[..n - 1] == Repeat(x, n - 1);
    }
  }

  /** How many codes of a length a vector has that is put together of four runs. */
  lemma FourRuns(a: nat, b: nat, c: nat, d: nat, l: nat)
    ensures Count(Repeat(8, a) + Repeat(9, b) + Repeat(7, c) + Repeat(8, d), l) ==
      if l == 8 then a + d else if l == 9 then b else if l == 7 then c else 0
  {
    hide Repeat;
    CountSum(Repeat(8, a) + Repeat(9, b) + Repeat(7, c), Repeat(8, d), l);
    CountSum(Repeat(8, a) + Repeat(9, b), Repeat(7, c), l);
    CountSum(Repeat(8, a), Repeat(9, b), l);
    CountSame(8, a, l);
    CountSame(9, b, l);
    CountSame(7, c, l);
    CountSame(8, d, l);
  }

  function Most(n: nat, cap: nat): nat {
    if n < cap then n else cap
  }

  /** The symbols before one, again in four runs. */
  lemma FixedPrefix(sym: nat)
    requires sym < 288
    ensures FIXED_LITERALS[..sym] ==
      Repeat(8, Most(sym, 144)) + Repeat(9, if sym < 144 then 0 else Most(sym - 144, 112))
      + Repeat(7, if sym < 256 then 0 else Most(sym - 256, 24)) + Repeat(8, if sym < 280 then 0 else sym - 280)
    ensures |FIXED_LITERALS| == 288
    ensures FIXED_LITERALS[sym] == if sym < 144 then 8 else if sym < 256 then 9 else if sym < 280 then 7 else 8
  {
  }

  lemma {:induction false} NextCodeSmall(lens: seq<nat>, k: nat)
    requires k >= 1 && forall l :: 0 < l < k ==> Count(lens, l) == 0
    ensures NextCode(lens, k) == 0
  {
    if k > 1 {
      NextCodeSmall(lens, k - 1);
    }
  }

  lemma FixedNext()
    ensures NextCode(FIXED_LITERALS, 7) == 0 && NextCode(FIXED_LITERALS, 8) == 48 && NextCode(FIXED_LITERALS, 9) == 400
  {
    hide Count, Repeat;
    forall l: nat
      ensures Count(FIXED_LITERALS, l) == if l == 8 then 152 else if l == 9 then 112 else if l == 7 then 24 else 0
    {
      FourRuns(144, 112, 24, 8, l);
    }
    NextCodeSmall(FIXED_LITERALS, 7);
  }

  lemma FixedLiteral(sym: nat)
    requires sym < 288
    ensures |FIXED_LITERALS| == 288 && Used(FIXED_LITERALS, sym) && Code(FIXED_LITERALS, sym) == FixedCode(sym)
  {
    FixedNext();
    FixedPrefix(sym);
    hide NextCode, Count, Repeat, MsbBits;
    FourRuns(Most(sym, 144), if sym < 144 then 0 else Most(sym - 144, 112),
             if sym < 256 then 0 else Most(sym - 256, 24), if sym < 280 then 0 else sym - 280, FIXED_LITERALS[sym]);
  }

  lemma FixedDistance(sym: nat)
    requires sym < 30
    ensures |FIXED_DISTANCES| == 30 && Used(FIXED_DISTANCES, sym) && Code(FIXED_DISTANCES, sym) == MsbBits(sym, 5)
  {
    forall l: nat
      ensures Count(FIXED_DISTANCES, l) == if l == 5 then 30 else 0
    {
      CountSame(5, 30, l);
    }
    NextCodeSmall(FIXED_DISTANCES, 5);
    assert FIXED_DISTANCES[..sym] == Repeat(5, sym);
    CountSame(5, sym, 5);
  }

  // ------------------------------------------------------------------
  // Lengths and distances

  lemma LengthBits(e: nat, q: nat)
    requires e <= 5 && q < 8 && (e > 0 ==> q >= 4)
    ensures LENGTH_EXTRA[4 * e + q] == e && LENGTH_BASE[0] == 3
  {
    assert 4 * e + q < 28;
  }

  /** The symbols of a row divide its lengths evenly, each row going on where the one before ends. */
  lemma {:induction false} LengthRow(e: nat, q: nat)
    requires e <= 5 && q < 8 && (e > 0 ==> q >= 4)
    ensures LENGTH_EXTRA[4 * e + q] == e && LENGTH_BASE[4 * e + q] == 3 + q * Pow2(e)
    decreases e, q
  {
    hide LENGTH_BASE, LENGTH_EXTRA;
    LengthBits(e, q);
    RowStep(q, e, 4);
    if e > 0 && q == 4 {
      LengthRow(e - 1, 7);
      LengthRangesTile(4 * (e - 1) + 7);
    } else if q > 0 {
      LengthRow(e, q - 1);
      LengthRangesTile(4 * e + q - 1);
    }
  }

  lemma RowStep(q: nat, e: nat, half: nat)
    ensures q > 0 ==> (q - 1) * Pow2(e) + Pow2(e) == q * Pow2(e)
    ensures e > 0 ==> (2 * half - 1) * Pow2(e - 1) + Pow2(e - 1) == half * Pow2(e)
  {
    if q > 0 {
      MulDistributes(q - 1, 1, Pow2(e));
    }
    if e > 0 && half > 0 {
      MulDistributes(2 * half - 1, 1, Pow2(e - 1));
      MulAssoc(half, 2, Pow2(e - 1));
    }
  }

  lemma DistanceBits(e: nat, q: nat)
    requires e <= 13 && q < 4 && (e > 0 ==> q >= 2)
    ensures DISTANCE_EXTRA[2 * e + q] == e && DISTANCE_BASE[0] == 1
  {
    assert 2 * e + q < 30;
  }

  lemma {:induction false} DistanceRow(e: nat, q: nat)
    requires e <= 13 && q < 4 && (e > 0 ==> q >= 2)
    ensures DISTANCE_EXTRA[2 * e + q] == e && DISTANCE_BASE[2 * e + q] == 1 + q * Pow2(e)
    decreases e, q
  {
    hide DISTANCE_BASE, DISTANCE_EXTRA;
    DistanceBits(e, q);
    RowStep(q, e, 2);
    if e > 0 && q == 2 {
      DistanceRow(e - 1, 3);
      DistanceRangesTile(2 * (e - 1) + 3);
    } else if q > 0 {
      DistanceRow(e, q - 1);
      DistanceRangesTile(2 * e + q - 1);
    }
  }

  lemma Divided(m: nat, p: nat)
    requires p >= 1
    ensures m == m / p * p + m % p && m % p < p
  {
  }

  lemma LengthSplitIs(n: nat)
    requires 3 <= n <= 258
    ensures var s := LengthSplit(n);
      && 257 <= s.sym < 286 && s.extra < Pow2(s.bits)
      && s.bits == LENGTH_EXTRA[s.sym - 257] && LENGTH_BASE[s.sym - 257] + s.extra == n
  {
    hide Halvings, LENGTH_BASE, LENGTH_EXTRA;
    LastLength();
    LengthBelow(n);
    if n < 258 {
      PowersUpTo14();
      HalvedOften(n - 3, 8, 5);
      var e := Halvings(n - 3, 8);
      LengthRow(e, (n - 3) / Pow2(e));
      Divided(n - 3, Pow2(e));
      hide Pow2;
    }
  }

  lemma LastLength()
    ensures LENGTH_BASE[28] == 258 && LENGTH_EXTRA[28] == 0 && Pow2(0) == 1 && |LENGTH_BASE| == |LENGTH_EXTRA| == 31
  {
  }

  lemma DistanceSplitIs(d: nat)
    requires 1 <= d <= 32768
    ensures var s := DistanceSplit(d);
      && s.sym < 30 && s.extra < Pow2(s.bits) && |DISTANCE_BASE| == |DISTANCE_EXTRA| == 30
      && s.bits == DISTANCE_EXTRA[s.sym] && DISTANCE_BASE[s.sym] + s.extra == d
  {
    hide Halvings, DISTANCE_BASE, DISTANCE_EXTRA;
    ThirtyDistances();
    PowersUpTo14();
    HalvedOften(d - 1, 4, 13);
    var e := Halvings(d - 1, 4);
    DistanceRow(e, (d - 1) / Pow2(e));
    Divided(d - 1, Pow2(e));
    hide Pow2;
  }

  lemma ThirtyDistances()
    ensures |DISTANCE_BASE| == |DISTANCE_EXTRA| == 30
  {
  }

  // ------------------------------------------------------------------
  // Literals and copies

  /** The codes that the reference decoder is given are those of the encoder. */
  predicate CodedBy(c: Coding, lit: seq<nat>, dist: seq<nat>) {
    if c.FixedCodes? then lit == FIXED_LITERALS && dist == FIXED_DISTANCES else c == Canonical(lit, dist)
  }

  ghost predicate Decoder(c: Coding, lit: Lengths, dist: Lengths) {
    CodedBy(c, lit, dist) && |dist| <= 30 && !Oversubscribed(lit) && !Oversubscribed(dist)
  }

  lemma LiteralRead(c: Coding, lit: Lengths, dist: Lengths, sym: nat, rest: seq<bool>)
    requires Decoder(c, lit, dist) && if c.FixedCodes? then sym < 288 else Used(lit, sym)
    ensures RefSym(lit, LiteralCode(c, sym) + rest) == Done(sym, rest)
  {
    hide Oversubscribed, Code, FixedCode, RefSym, FIXED_LITERALS, FIXED_DISTANCES;
    if c.FixedCodes? {
      FixedLiteral(sym);
    }
    SymbolRead(lit, sym, rest);
  }

  lemma DistanceRead(c: Coding, lit: Lengths, dist: Lengths, sym: nat, rest: seq<bool>)
    requires Decoder(c, lit, dist) && sym < 30 && (c.Canonical? ==> Used(dist, sym))
    ensures RefSym(dist, DistanceCode(c, sym) + rest) == Done(sym, rest)
  {
    hide Oversubscribed, Code, RefSym, FIXED_LITERALS, FIXED_DISTANCES;
    if c.FixedCodes? {
      FixedDistance(sym);
    }
    SymbolRead(dist, sym, rest);
  }

  lemma Joined(a: seq<bool>, b: seq<bool>, rest: seq<bool>)
    ensures (a + b) + rest == a + (b + rest)
  {
  }

  /** What follows the length symbol of a copy. */
  lemma CopyRead(c: Coding, lit: Lengths, dist: Lengths, n: nat, d: nat, rest: seq<bool>)
    requires Decoder(c, lit, dist) && 3 <= n <= 258 && 1 <= d <= 32768
    requires c.Canonical? ==> Used(dist, DistanceSplit(d).sym)
    ensures var (l, m) := (LengthSplit(n), DistanceSplit(d));
      && 257 <= l.sym < 286
      && RefCopy(l.sym, dist, LsbBits(l.extra, l.bits) + (DistanceCode(c, m.sym) + (LsbBits(m.extra, m.bits) + rest)))
         == Done((n, d), rest)
  {
    hide LengthSplit, DistanceSplit, DistanceCode, RefSym, RefNum, LsbBits, LENGTH_BASE, LENGTH_EXTRA, DISTANCE_BASE;
    hide DISTANCE_EXTRA, Used, Oversubscribed, FIXED_LITERALS, FIXED_DISTANCES;
    var (l, m) := (LengthSplit(n), DistanceSplit(d));
    LengthSplitIs(n);
    DistanceSplitIs(d);
    var tail := LsbBits(m.extra, m.bits) + rest;
    NumberRead(l.extra, l.bits, DistanceCode(c, m.sym) + tail);
    DistanceRead(c, lit, dist, m.sym, tail);
    NumberRead(m.extra, m.bits, rest);
  }

  /** Copying from what is there gives what the data go on with. */
  lemma {:induction false} CopyGives(data: seq<byte>, at: nat, dist: nat, n: nat)
    requires 1 <= dist <= at && at + n <= |data| && forall i :: at <= i < at + n ==> data[i] == data[i - dist]
    ensures Copy(data[..at], dist, n) == data[..at + n]
    decreases n
  {
    if n > 0 {
      assert data[..at] + [data[at - dist]] == data[..at + 1];
      CopyGives(data, at + 1, dist, n - 1);
    }
  }

  lemma TokenRead(c: Coding, lit: Lengths, dist: Lengths, t: Token, data: seq<byte>, at: nat, rest: seq<bool>)
    requires Decoder(c, lit, dist) && Means(t, data, at) && Sends(c, t)
    ensures RefCodes(lit, dist, TokenBits(c, t) + rest, data[..at]) == RefCodes(lit, dist, rest, data[..at + Size(t)])
  {
    hide Decoder, LiteralCode, DistanceCode, RefSym, RefCopy, LsbBits, LengthSplit, DistanceSplit, Copy;
    match t
    case Literal(b) =>
      CanonicalUses(c, lit, dist);
      LiteralRead(c, lit, dist, b, rest);
      assert data[..at] + [b] == data[..at + 1];
    case Match(n, d) =>
      CanonicalUses(c, lit, dist);
      CopyRead(c, lit, dist, n, d, rest);
      var (l, m) := (LengthSplit(n), DistanceSplit(d));
      var e1, dc, e2 := LsbBits(l.extra, l.bits), DistanceCode(c, m.sym), LsbBits(m.extra, m.bits);
      LiteralRead(c, lit, dist, l.sym, e1 + (dc + (e2 + rest)));
      Joined(LiteralCode(c, l.sym), e1 + (dc + e2), rest);
      Joined(e1, dc + e2, rest);
      Joined(dc, e2, rest);
      CopyGives(data, at, d, n);
  }

  lemma CanonicalUses(c: Coding, lit: Lengths, dist: Lengths)
    requires Decoder(c, lit, dist)
    ensures c.Canonical? ==> c.lit == lit && c.dist == dist
    ensures |dist| <= 30
  {
    hide FIXED_LITERALS, FIXED_DISTANCES;
  }

  lemma {:induction false} TokensRead(c: Coding, lit: Lengths, dist: Lengths, tokens: seq<Token>, data: seq<byte>,
                                      at: nat, rest: seq<bool>)
    requires Decoder(c, lit, dist) && SendsAll(c, tokens) && AllMean(tokens, data, at) && at <= |data|
    ensures |dist| <= 30 && at + Sizes(tokens) <= |data|
    ensures RefCodes(lit, dist, TokensBits(c, tokens) + rest, data[..at]) == Done(data[..at + Sizes(tokens)], rest)
    decreases |tokens|
  {
    hide Decoder, LiteralCode, RefSym, RefCopy, TokenBits, Sends;
    CanonicalUses(c, lit, dist);
    if tokens == [] {
      LiteralRead(c, lit, dist, END_OF_BLOCK, rest);
    } else {
      hide RefCodes;
      var more := TokensBits(c, tokens[1..]);
      TokenRead(c, lit, dist, tokens[0], data, at, more + rest);
      Joined(TokenBits(c, tokens[0]), more, rest);
      TokensRead(c, lit, dist, tokens[1..], data, at + Size(tokens[0]), rest);
    }
  }

  // ------------------------------------------------------------------
  // Codes sent along

  lemma {:induction false} KraftOfOne(lens: Lengths, k: nat)
    requires forall i :: 0 <= i < |lens| ==> lens[i] == if i == k then 1 else 0
    ensures Kraft(lens) == if k < |lens| then Pow2(BMAX - 1) else 0
  {
    if lens != [] {
      KraftOfOne(lens[..|lens| - 1], k);
    }
  }

  lemma UsableDecodes(lens: seq<nat>)
    requires Usable(lens)
    ensures InRange(lens) && Decodable(lens) && !Oversubscribed(lens)
  {
    hide Kraft;
    Pow2Monotone(BMAX - 1, BMAX);
    if AllUnused(lens) {
      KraftOfOne(lens, |lens|);
    } else if !Complete(lens) {
      var k: nat :| OnlyOneBit(lens, k);
      KraftOfOne(lens, k);
      assert lens[k] == 1;
    }
  }

  /** When the i-th of the lengths is sent. */
  function Place(i: nat): (j: nat)
    requires i < 19
    ensures j < 19
  {
    [3, 17, 15, 13, 11, 9, 7, 5, 4, 6, 8, 10, 12, 14, 16, 18, 0, 1, 2][i]
  }

  lemma PlaceOfSent(j: nat)
    requires j < 19
    ensures Place(SentAs(j)) == j && Order(j) == SentAs(j)
  {
  }

  lemma SentAtPlace(i: nat)
    requires i < 19
    ensures SentAs(Place(i)) == i
  {
  }

  /** The lengths as far as they were sent. */
  function Received(clens: seq<nat>, n: nat): (r: seq<nat>)
    requires |clens| == 19
    ensures |r| == 19
  {
    seq(19, i requires 0 <= i < 19 => if Place(i) < n then clens[i] else 0)
  }

  lemma ReceivedNext(clens: seq<nat>, j: nat)
    requires |clens| == 19 && j < 19
    ensures Received(clens, j + 1) == Received(clens, j)[SentAs(j) := clens[SentAs(j)]]
  {
    hide Place, SentAs;
    PlaceOfSent(j);
    var r, r' := Received(clens, j), Received(clens, j + 1);
    forall i | 0 <= i < 19
      ensures r'[i] == r[SentAs(j) := clens[SentAs(j)]][i]
    {
      SentAtPlace(i);
    }
  }

  lemma AllReceived(clens: seq<nat>, n: nat)
    requires |clens| == 19 && n <= 19 && forall j :: n <= j < 19 ==> clens[SentAs(j)] == 0
    ensures Received(clens, n) == clens && Received(clens, 0) == Repeat(0, 19)
  {
    hide Place, SentAs;
    var r := Received(clens, n);
    forall i | 0 <= i < 19
      ensures r[i] == clens[i]
    {
      SentAtPlace(i);
    }
  }

  lemma {:induction false} OrderRead(clens: seq<nat>, j: nat, n: nat, rest: seq<bool>)
    requires |clens| == 19 && j <= n <= 19 && forall i :: 0 <= i < 19 ==> clens[i] <= 7
    ensures RefOrder(n, j, OrderBits(clens, j, n) + rest, Received(clens, j)) == Done(Received(clens, n), rest)
    decreases n - j
  {
    hide Received, RefNum, LsbBits, SentAs;
    if j == n {
      assert OrderBits(clens, j, n) + rest == rest;
    } else {
      var l := clens[SentAs(j)];
      var more := OrderBits(clens, j + 1, n);
      assert Pow2(3) == 8;
      NumberRead(l, 3, more + rest);
      Joined(LsbBits(l, 3), more, rest);
      PlaceOfSent(j);
      ReceivedNext(clens, j);
      OrderRead(clens, j + 1, n, rest);
    }
  }

  lemma RunRead(r: Run, lens: seq<nat>, at: nat, rest: seq<bool>)
    requires Spells(r, lens, at) && at <= |lens|
    ensures RunSymbol(r) < 19
    ensures RefRun(RunSymbol(r), RunExtra(r) + rest, lens[..at]) == Done(lens[at..at + RunSize(r)], rest)
  {
    hide RefNum, LsbBits;
    PowersUpTo14();
    match r
    case Length(l) =>
      assert RunExtra(r) + rest == rest && lens[at..at + 1] == [l];
    case Again(n) =>
      NumberRead(n - 3, 2, rest);
      SameRun(lens, at, n, lens[at - 1]);
    case FewZeros(n) =>
      NumberRead(n - 3, 3, rest);
      SameRun(lens, at, n, 0);
    case ManyZeros(n) =>
      NumberRead(n - 11, 7, rest);
      SameRun(lens, at, n, 0);
  }

  lemma SameRun(lens: seq<nat>, at: nat, n: nat, l: nat)
    requires at + n <= |lens| && forall i :: at <= i < at + n ==> lens[i] == l
    ensures lens[at..at + n] == Repeat(l, n)
  {
  }

  lemma {:induction false} RunsRead(clens: Lengths, runs: seq<Run>, lens: seq<nat>, at: nat, rest: seq<bool>)
    requires |clens| == 19 && !Oversubscribed(clens) && Spellable(clens, runs)
    requires AllSpell(runs, lens, at) && at <= |lens|
    ensures RefLengths(clens, |lens|, RunsBits(clens, runs) + rest, lens[..at]) == Done(lens, rest)
    decreases |runs|
  {
    hide Oversubscribed, RefSym, RefRun, Code, Spells, RunExtra;
    if runs == [] {
      assert RunsBits(clens, runs) + rest == rest && lens[..at] == lens;
    } else {
      var r, more := runs[0], RunsBits(clens, runs[1..]);
      RunSpans(r, lens, at);
      Joined(Code(clens, RunSymbol(r)) + RunExtra(r), more, rest);
      Joined(Code(clens, RunSymbol(r)), RunExtra(r), more + rest);
      SymbolRead(clens, RunSymbol(r), RunExtra(r) + (more + rest));
      RunRead(r, lens, at, more + rest);
      assert lens[..at] + lens[at..at + RunSize(r)] == lens[..at + RunSize(r)];
      RunsRead(clens, runs[1..], lens, at + RunSize(r), rest);
    }
  }

  lemma RunSpans(r: Run, lens: seq<nat>, at: nat)
    requires Spells(r, lens, at)
    ensures ValidRun(r) && RunSize(r) >= 1 && at + RunSize(r) <= |lens|
  {
  }

  // ------------------------------------------------------------------
  // Blocks

  /** The lengths that were sent arrive, and are accepted if both codes can be decoded with. */
  lemma HeaderRead(lit: seq<nat>, dist: seq<nat>, clens: seq<nat>, sent: nat, runs: seq<Run>, rest: seq<bool>)
    requires 257 <= |lit| <= 286 && 1 <= |dist| <= 30 && |clens| == 19 && 4 <= sent <= 19
    requires Usable(clens) && forall i :: 0 <= i < 19 ==> clens[i] <= 7
    requires forall j :: sent <= j < 19 ==> clens[SentAs(j)] == 0
    requires Spellable(clens, runs) && AllSpell(runs, lit + dist, 0)
    ensures RefHeader(LsbBits(|lit| - 257, 5) + (LsbBits(|dist| - 1, 5) + (LsbBits(sent - 4, 4)
                      + (OrderBits(clens, 0, sent) + (RunsBits(clens, runs) + rest)))))
            == if Decodable(lit) && Decodable(dist) then Done((lit, dist), rest) else Stuck
  {
    hide RefNum, LsbBits, RefOrder, RefLengths, OrderBits, RunsBits, Usable, Decodable, Oversubscribed, SentAs;
    hide Spellable, AllSpell;
    UsableDecodes(clens);
    PowersUpTo14();
    var runBits := RunsBits(clens, runs);
    var order := OrderBits(clens, 0, sent);
    NumberRead(|lit| - 257, 5, LsbBits(|dist| - 1, 5) + (LsbBits(sent - 4, 4) + (order + (runBits + rest))));
    NumberRead(|dist| - 1, 5, LsbBits(sent - 4, 4) + (order + (runBits + rest)));
    NumberRead(sent - 4, 4, order + (runBits + rest));
    AllReceived(clens, sent);
    OrderRead(clens, 0, sent, runBits + rest);
    RunsRead(clens, runs, lit + dist, 0, rest);
    assert (lit + dist)[..0] == [];
    assert (lit + dist)[..|lit|] == lit && (lit + dist)[|lit|..] == dist;
  }

  lemma {:induction false} BytesRead(bytes: seq<byte>, rest: seq<bool>, out: seq<byte>)
    ensures RefBytes(|bytes|, BitsOf(bytes) + rest, out) == Done(out + bytes, rest)
    decreases |bytes|
  {
    hide RefNum, LsbBits;
    if bytes == [] {
      assert BitsOf(bytes) + rest == rest && out + bytes == out;
    } else {
      var more := BitsOf(bytes[1..]);
      assert Pow2(8) == 256;
      NumberRead(bytes[0], 8, more + rest);
      Joined(LsbBits(bytes[0], 8), more, rest);
      BytesRead(bytes[1..], rest, out + [bytes[0]]);
      assert out + [bytes[0]] + bytes[1..] == out + bytes;
    }
  }

  lemma StoredRead(bytes: seq<byte>, pad: seq<bool>, rest: seq<bool>, out: seq<byte>)
    requires |bytes| <= 65535 && |pad| < 8 && |rest| % 8 == 0
    ensures RefStored(pad + (LsbBits(|bytes|, 16) + (LsbBits(65535 - |bytes|, 16) + (StreamBits(bytes) + rest))), out)
            == Done(out + bytes, rest)
  {
    hide RefNum, LsbBits, RefBytes, Pow2, StreamBits, Align;
    var n, complement := LsbBits(|bytes|, 16), LsbBits(65535 - |bytes|, 16);
    var body := StreamBits(bytes) + rest;
    Sixteen();
    Whole(|n + (complement + body)|, |bytes|, |rest|);
    AlignSkips(pad, n + (complement + body));
    NumberRead(|bytes|, 16, complement + body);
    NumberRead(65535 - |bytes|, 16, body);
    StreamIsBits(bytes);
    BytesRead(bytes, rest, out);
  }

  lemma Whole(total: nat, bytes: nat, rest: nat)
    requires total == 32 + 8 * bytes + rest && rest % 8 == 0
    ensures total % 8 == 0
  {
  }

  lemma Sixteen()
    ensures Pow2(16) == 65536
  {
    PowersUpTo14();
  }

  lemma AlignSkips(pad: seq<bool>, s: seq<bool>)
    requires |pad| < 8 && |s| % 8 == 0
    ensures Align(pad + s) == s
  {
    assert |pad + s| % 8 == |pad|;
  }

  lemma FixedRead(tokens: seq<Token>, data: seq<byte>, at: nat, rest: seq<bool>)
    requires SendsAll(FixedCodes, tokens) && AllMean(tokens, data, at) && at <= |data|
    ensures at + Sizes(tokens) <= |data|
    ensures RefFixed(TokensBits(FixedCodes, tokens) + rest, data[..at]) == Done(data[..at + Sizes(tokens)], rest)
  {
    hide SendsAll, AllMean, TokensBits, RefCodes, Complete, Oversubscribed, FIXED_LITERALS, FIXED_DISTANCES;
    FixedInRange();
    FixedDecoder();
    TokensRead(FixedCodes, FIXED_LITERALS, FIXED_DISTANCES, tokens, data, at, rest);
  }

  lemma FixedInRange()
    ensures InRange(FIXED_LITERALS) && InRange(FIXED_DISTANCES)
  {
  }

  lemma FixedDecoder()
    ensures Decoder(FixedCodes, FIXED_LITERALS, FIXED_DISTANCES)
  {
    FixedTables.FixedLiteralsComplete();
    FixedTables.FixedDistancesUsable();
    FixedDistance(0);
    hide FIXED_LITERALS, FIXED_DISTANCES, Kraft;
  }

  lemma DynamicRead(b: Block, data: seq<byte>, at: nat, rest: seq<bool>)
    requires b.Dynamic? && Writable(b) && AllMean(b.tokens, data, at) && at <= |data|
    ensures at + Sizes(b.tokens) <= |data|
    ensures RefDynamic(BodyBits(b) + rest, data[..at]) == Done(data[..at + Sizes(b.tokens)], rest)
  {
    hide AllMean, SendsAll, TokensBits, RefCodes, RefHeader, LsbBits, OrderBits, RunsBits, Usable, Oversubscribed;
    hide Spellable, AllSpell, SentAs, Decodable;
    var bits := TokensBits(Canonical(b.lit, b.dist), b.tokens);
    UsableDecodes(b.lit);
    UsableDecodes(b.dist);
    HeaderRead(b.lit, b.dist, b.clens, b.sent, b.runs, bits + rest);
    TokensRead(Canonical(b.lit, b.dist), b.lit, b.dist, b.tokens, data, at, rest);
    SixJoined(LsbBits(|b.lit| - 257, 5), LsbBits(|b.dist| - 1, 5), LsbBits(b.sent - 4, 4),
              OrderBits(b.clens, 0, b.sent), RunsBits(b.clens, b.runs), bits, rest);
  }

  lemma SixJoined(a: seq<bool>, b: seq<bool>, c: seq<bool>, d: seq<bool>, e: seq<bool>, f: seq<bool>, rest: seq<bool>)
    ensures a + (b + (c + (d + (e + f)))) + rest == a + (b + (c + (d + (e + (f + rest)))))
  {
    Joined(a, b + (c + (d + (e + f))), rest);
    Joined(b, c + (d + (e + f)), rest);
    Joined(c, d + (e + f), rest);
    Joined(d, e + f, rest);
    Joined(e, f, rest);
  }

  /** One block decodes to the data it stands for. */
  lemma BlockRead(b: Block, last: bool, data: seq<byte>, at: nat, pos: nat, rest: seq<bool>)
    requires Writable(b) && OnBoundary(b, pos) && BlockMeans(b, data, at) && at <= |data|
    requires (pos + |BlockBits(b, last)| + |rest|) % 8 == 0
    ensures at + BlockSize(b) <= |data|
    ensures RefBlock(BlockBits(b, last) + rest, data[..at]) == Done((last, data[..at + BlockSize(b)]), rest)
  {
    hide Writable, BodyBits, RefStored, RefFixed, RefDynamic, RefNum, OnBoundary, BlockMeans;
    var body := BodyBits(b) + rest;
    BitsJoined([last], TypeBits(b), BodyBits(b), rest);
    FlagRead(last, TypeBits(b) + body);
    TypeRead(b, body);
    BodyRead(b, last, data, at, pos, rest);
  }

  lemma BitsJoined(a: seq<bool>, b: seq<bool>, c: seq<bool>, rest: seq<bool>)
    ensures a + (b + c) + rest == a + (b + (c + rest))
  {
    Joined(a, b + c, rest);
    Joined(b, c, rest);
  }

  lemma FlagRead(last: bool, rest: seq<bool>)
    ensures RefNum([last] + rest, 1) == Done(if last then 1 else 0, rest)
  {
    assert ([last] + rest)[..1] == [last] && ([last] + rest)[1..] == rest;
    assert Lsb([last]) == Bit(last) + 2 * Lsb([]);
  }

  function Kind(b: Block): nat {
    match b
    case Stored(_, _) => 0
    case Fixed(_) => 1
    case Dynamic(_, _, _, _, _, _) => 2
  }

  lemma TypeRead(b: Block, rest: seq<bool>)
    ensures RefNum(TypeBits(b) + rest, 2) == Done(Kind(b), rest)
  {
    var t := TypeBits(b);
    assert (t + rest)[..2] == t && (t + rest)[2..] == rest;
    assert t[1..] == [t[1]] && t[1..][1..] == [];
    assert Lsb(t) == Bit(t[0]) + 2 * Lsb([t[1]]) && Lsb([t[1]]) == Bit(t[1]) + 2 * Lsb([]);
  }

  lemma StoredBlockRead(b: Block, last: bool, data: seq<byte>, at: nat, pos: nat, rest: seq<bool>)
    requires b.Stored? && Writable(b) && OnBoundary(b, pos) && BlockMeans(b, data, at) && at <= |data|
    requires (pos + |BlockBits(b, last)| + |rest|) % 8 == 0
    ensures RefStored(BodyBits(b) + rest, data[..at]) == Done(data[..at + BlockSize(b)], rest)
  {
    hide LsbBits, StreamBits, RefStored;
    FourJoined(b.pad, LsbBits(|b.bytes|, 16), LsbBits(65535 - |b.bytes|, 16), StreamBits(b.bytes), rest);
    WholeRest(pos, |b.pad|, |b.bytes|, |rest|);
    StoredRead(b.bytes, b.pad, rest, data[..at]);
    assert data[..at] + data[at..at + |b.bytes|] == data[..at + |b.bytes|];
  }

  lemma FixedBody(b: Block)
    requires b.Fixed? && Writable(b)
    ensures SendsAll(FixedCodes, b.tokens) && BodyBits(b) == TokensBits(FixedCodes, b.tokens)
  {
  }

  lemma WholeRest(pos: nat, pad: nat, bytes: nat, rest: nat)
    requires (pos + 3 + pad) % 8 == 0 && (pos + (1 + (2 + (pad + (16 + (16 + 8 * bytes))))) + rest) % 8 == 0
    ensures rest % 8 == 0
  {
  }

  lemma BodyRead(b: Block, last: bool, data: seq<byte>, at: nat, pos: nat, rest: seq<bool>)
    requires Writable(b) && OnBoundary(b, pos) && BlockMeans(b, data, at) && at <= |data|
    requires (pos + |BlockBits(b, last)| + |rest|) % 8 == 0
    ensures at + BlockSize(b) <= |data|
    ensures var s, out := BodyBits(b) + rest, data[..at];
      (if b.Stored? then RefStored(s, out) else if b.Fixed? then RefFixed(s, out) else RefDynamic(s, out))
      == Done(data[..at + BlockSize(b)], rest)
  {
    hide Writable, BodyBits, BlockBits, RefStored, RefFixed, RefDynamic, AllMean, OnBoundary;
    match b
    case Stored(bytes, pad) => StoredBlockRead(b, last, data, at, pos, rest);
    case Fixed(tokens) =>
      FixedBody(b);
      FixedRead(tokens, data, at, rest);
    case Dynamic(_, _, _, _, _, _) => DynamicRead(b, data, at, rest);
  }

  lemma FourJoined(a: seq<bool>, b: seq<bool>, c: seq<bool>, d: seq<bool>, rest: seq<bool>)
    ensures a + (b + (c + d)) + rest == a + (b + (c + (d + rest)))
  {
    Joined(a, b + (c + d), rest);
    Joined(b, c + d, rest);
    Joined(c, d, rest);
  }

  lemma {:induction false} BlocksRead(blocks: seq<Block>, data: seq<byte>, at: nat, pos: nat, rest: seq<bool>)
    requires AllWritable(blocks, pos) && BlocksMean(blocks, data, at) && at <= |data|
    requires (pos + |BlocksBits(blocks, pos)| + |rest|) % 8 == 0
    ensures RefBlocks(BlocksBits(blocks, pos) + rest, data[..at]) == Done(data, rest)
    decreases |blocks|
  {
    hide Writable, OnBoundary, BlockBits, RefBlock, BlockMeans, BlockSize;
    if |blocks| == 1 {
      BlockRead(blocks[0], true, data, at, pos, rest);
      assert data[..|data|] == data;
    } else {
      var b := BlockBits(blocks[0], false);
      var more := BlocksBits(blocks[1..], pos + |b|);
      BlockRead(blocks[0], false, data, at, pos, more + rest);
      Joined(b, more, rest);
      BlocksRead(blocks[1..], data, at + BlockSize(blocks[0]), pos + |b|, rest);
    }
  }

  /**
   Decoding undoes encoding: if the bits of the input begin with blocks that stand for some
   data, the reference decoder gives that data and what follows the last block.
   */
  lemma InflateInverts(input: seq<byte>, blocks: seq<Block>, data: seq<byte>)
    requires AllWritable(blocks, 0) && BlocksMean(blocks, data, 0) && BlocksBits(blocks, 0) <= StreamBits(input)
    ensures RefInflate(input) == Done(data, StreamBits(input)[|BlocksBits(blocks, 0)|..])
  {
    hide AllWritable, BlocksMean, BlocksBits, RefBlocks, StreamBits;
    var s, bits := StreamBits(input), BlocksBits(blocks, 0);
    StreamIsBits(input);
    assert s == bits + s[|bits|..];
    BlocksRead(blocks, data, 0, 0, s[|bits|..]);
    assert data[..0] == [];
  }
}

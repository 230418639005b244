/**
 Canonical Huffman codes as section 3.2.2 of RFC 1951 defines them: a vector of
 code lengths (0 for an unused symbol) determines every code.
 Positions are taken on the scale of BMAX-bit strings (see Bits.Lo and Bits.Hi).
 */
module Huffman {
  import opened Basics
  import opened Bits

  /** Longest code huft_build accepts. */
  const BMAX: nat := 16

  type Lengths = s: seq<nat> | forall i :: 0 <= i < |s| ==> s[i] <= BMAX

  /** bl_count: how many symbols have length `l`. */
  function Count(lens: seq<nat>, l: nat): (c: nat)
    ensures c <= |lens|
  {
    if lens == [] then 0
    else Count(lens[..|lens| - 1], l) + if lens[|lens| - 1] == l then 1 else 0
  }

  /** next_code: the first code of length `k`. */
  function NextCode(lens: seq<nat>, k: nat): nat
    requires k >= 1
  {
    if k == 1 then 0 else 2 * (NextCode(lens, k - 1) + Count(lens, k - 1))
  }

  /** How many earlier symbols share the length of `sym`. */
  function Rank(lens: seq<nat>, sym: nat): nat
    requires sym < |lens|
  {
    Count(lens[..sym], lens[sym])
  }

  predicate Used(lens: seq<nat>, sym: nat) {
    sym < |lens| && lens[sym] > 0
  }

  /** Codes of one length are consecutive, in symbol order. */
  function CodeOf(lens: seq<nat>, sym: nat): nat
    requires Used(lens, sym)
  {
    NextCode(lens, lens[sym]) + Rank(lens, sym)
  }

  /** The code of `sym` in the order its bits appear in the stream. */
  function Code(lens: seq<nat>, sym: nat): (s: seq<bool>)
    requires Used(lens, sym)
    ensures |s| == lens[sym]
  {
    MsbBits(CodeOf(lens, sym), lens[sym])
  }

  /** The Kraft sum of the code, times 2^BMAX. */
  function Kraft(lens: Lengths): nat {
    if lens == [] then 0
    else
      var l := lens[|lens| - 1];
      Kraft(lens[..|lens| - 1]) + if l == 0 then 0 else Pow2(BMAX - l)
  }

  predicate Complete(lens: Lengths) {
    Kraft(lens) == Pow2(BMAX)
  }

  predicate Oversubscribed(lens: Lengths) {
    Kraft(lens) > Pow2(BMAX)
  }

  predicate AllUnused(lens: seq<nat>) {
    forall i :: 0 <= i < |lens| ==> lens[i] == 0
  }

  predicate AllUsed(lens: seq<nat>) {
    forall i :: 0 <= i < |lens| ==> lens[i] > 0
  }

  predicate OneBitCode(lens: seq<nat>) {
    1 in lens && forall i :: 0 <= i < |lens| ==> lens[i] <= 1
  }

  // ------------------------------------------------------------------
  // The reference decoder for one symbol.

  ghost predicate Reads(lens: seq<nat>, bits: seq<bool>, sym: nat) {
    Used(lens, sym) && Code(lens, sym) <= bits
  }

  /** The symbol whose code the bits start with, if there is one. */
  ghost function RefSymbol(lens: seq<nat>, bits: seq<bool>): (r: Option<nat>)
    ensures r.Some? ==> Reads(lens, bits, r.value)
    ensures r.None? ==> forall sym :: !Reads(lens, bits, sym)
  {
    if exists sym :: Reads(lens, bits, sym) then
      var sym :| Reads(lens, bits, sym);
      Some(sym)
    else None
  }

  // ------------------------------------------------------------------
  // Ranks and counts

  lemma {:induction false} CountPrefix(lens: seq<nat>, n: nat, l: nat)
    requires n <= |lens|
    ensures Count(lens[..n], l) <= Count(lens, l)
    ensures n < |lens| ==> Count(lens[..n + 1], l) == Count(lens[..n], l) + if lens[n] == l then 1 else 0
    ensures n < |lens| && lens[n] == l ==> Count(lens[..n], l) < Count(lens, l)
    decreases |lens|
  {
    if n < |lens| {
      var m := |lens| - 1;
      assert lens[..n + 1][..n] == lens[..n];
      CountPrefix(lens[..m], n, l);
      assert lens[..m][..n] == lens[..n];
    } else {
      assert lens[..n] == lens;
    }
  }

  lemma RankOrder(lens: seq<nat>, s: nat, t: nat)
    requires s < t < |lens| && lens[s] == lens[t]
    ensures Rank(lens, s) < Rank(lens, t)
  {
    CountPrefix(lens[..t], s, lens[s]);
    assert lens[..t][..s] == lens[..s];
  }

  lemma {:induction false} CountZero(lens: seq<nat>, l: nat)
    ensures Count(lens, l) == 0 <==> l !in lens
  {
    if lens != [] {
      var m := |lens| - 1;
      CountZero(lens[..m], l);
      assert lens == lens[..m] + [lens[m]];
    }
  }

  // ------------------------------------------------------------------
  // Where the codes of each length start and end

  function Base(lens: seq<nat>, k: nat): nat
    requires 1 <= k <= BMAX
  {
    NextCode(lens, k) * Pow2(BMAX - k)
  }

  function End(lens: seq<nat>, k: nat): nat
    requires 1 <= k <= BMAX
  {
    Base(lens, k) + Count(lens, k) * Pow2(BMAX - k)
  }

  lemma BaseStep(lens: seq<nat>, k: nat)
    requires 1 <= k < BMAX
    ensures Base(lens, k + 1) == End(lens, k)
  {
    var n, c, d := NextCode(lens, k), Count(lens, k), Pow2(BMAX - k - 1);
    assert (2 * (n + c)) * d == n * (2 * d) + c * (2 * d) by {
      MulDistributes(n, c, 2 * d);
      MulAssoc(n + c, 2, d);
    }
  }

  lemma {:induction false} BaseMonotone(lens: seq<nat>, j: nat, k: nat)
    requires 1 <= j < k <= BMAX
    ensures End(lens, j) <= Base(lens, k)
    decreases k
  {
    BaseStep(lens, k - 1);
    if j < k - 1 {
      BaseMonotone(lens, j, k - 1);
    }
  }

  function SymLo(lens: Lengths, sym: nat): nat
    requires Used(lens, sym)
  {
    CodeOf(lens, sym) * Pow2(BMAX - lens[sym])
  }

  function SymHi(lens: Lengths, sym: nat): nat
    requires Used(lens, sym)
  {
    SymLo(lens, sym) + Pow2(BMAX - lens[sym])
  }

  lemma SymWithin(lens: Lengths, sym: nat)
    requires Used(lens, sym)
    ensures Base(lens, lens[sym]) <= SymLo(lens, sym) && SymHi(lens, sym) <= End(lens, lens[sym])
    ensures SymHi(lens, sym) <= End(lens, BMAX)
  {
    var k := lens[sym];
    CountPrefix(lens, sym, k);
    SlotInBlock(NextCode(lens, k), Rank(lens, sym), Count(lens, k), Pow2(BMAX - k));
    if k < BMAX {
      BaseMonotone(lens, k, BMAX);
    }
  }

  lemma SlotInBlock(n: nat, r: nat, c: nat, d: nat)
    requires r < c
    ensures n * d <= (n + r) * d && (n + r) * d + d <= n * d + c * d
  {
    MulDistributes(n, r, d);
    MulDistributes(n, c, d);
    MulScale(n + r + 1, n + c, d);
    MulDistributes(n + r, 1, d);
  }

  lemma SymsDisjoint(lens: Lengths, s: nat, t: nat)
    requires Used(lens, s) && Used(lens, t) && s != t
    ensures SymHi(lens, s) <= SymLo(lens, t) || SymHi(lens, t) <= SymLo(lens, s)
  {
    SymWithin(lens, s);
    SymWithin(lens, t);
    var d := Pow2(BMAX - lens[s]);
    if lens[s] < lens[t] {
      BaseMonotone(lens, lens[s], lens[t]);
    } else if lens[t] < lens[s] {
      BaseMonotone(lens, lens[t], lens[s]);
    } else if s < t {
      RankOrder(lens, s, t);
      MulScale(CodeOf(lens, s) + 1, CodeOf(lens, t), d);
      MulDistributes(CodeOf(lens, s), 1, d);
    } else {
      RankOrder(lens, t, s);
      MulScale(CodeOf(lens, t) + 1, CodeOf(lens, s), d);
      MulDistributes(CodeOf(lens, t), 1, d);
    }
  }

  // ------------------------------------------------------------------
  // The Kraft sum is where the last code ends

  lemma {:induction false} NextCodeSnoc(lens: seq<nat>, l: nat, k: nat)
    requires k >= 1 && l >= 1
    ensures NextCode(lens + [l], k) == NextCode(lens, k) + if l < k then Pow2(k - l) else 0
    decreases k
  {
    assert (lens + [l])[..|lens|] == lens;
    if k > 1 {
      NextCodeSnoc(lens, l, k - 1);
    }
  }

  lemma {:induction false} NextCodeSnocUnused(lens: seq<nat>, k: nat)
    requires k >= 1
    ensures NextCode(lens + [0], k) == NextCode(lens, k)
    decreases k
  {
    assert (lens + [0])[..|lens|] == lens;
    if k > 1 {
      NextCodeSnocUnused(lens, k - 1);
    }
  }

  lemma {:induction false} KraftIsEnd(lens: Lengths)
    ensures Kraft(lens) == End(lens, BMAX)
  {
    if lens == [] {
      NextCodeEmpty(BMAX);
    } else {
      var m := |lens| - 1;
      var front, l := lens[..m], lens[m];
      assert lens == front + [l];
      KraftIsEnd(front);
      if l == 0 {
        NextCodeSnocUnused(front, BMAX);
      } else {
        NextCodeSnoc(front, l, BMAX);
      }
      assert Pow2(0) == 1;
    }
  }

  lemma {:induction false} NextCodeEmpty(k: nat)
    requires k >= 1
    ensures NextCode([], k) == 0
  {
    if k > 1 {
      NextCodeEmpty(k - 1);
    }
  }

  // ------------------------------------------------------------------
  // What makes a length vector a code: no code is a prefix of another

  /** The interval of a symbol's code is the one its bits name. */
  lemma CodeInterval(lens: Lengths, sym: nat)
    requires Used(lens, sym) && !Oversubscribed(lens)
    ensures CodeOf(lens, sym) < Pow2(lens[sym])
    ensures Lo(BMAX, Code(lens, sym)) == SymLo(lens, sym)
    ensures Hi(BMAX, Code(lens, sym)) == SymHi(lens, sym)
  {
    var k := lens[sym];
    SymWithin(lens, sym);
    KraftIsEnd(lens);
    Pow2Add(k, BMAX - k);
    if Pow2(k) <= CodeOf(lens, sym) {
      MulScale(Pow2(k), CodeOf(lens, sym), Pow2(BMAX - k));
    }
    AlignedBits(BMAX, k, CodeOf(lens, sym));
  }

  lemma PrefixFree(lens: Lengths, bits: seq<bool>, s: nat, t: nat)
    requires !Oversubscribed(lens)
    requires Reads(lens, bits, s) && Reads(lens, bits, t)
    ensures s == t
  {
    if s != t {
      var cs, ct := Code(lens, s), Code(lens, t);
      CodeInterval(lens, s);
      CodeInterval(lens, t);
      SymsDisjoint(lens, s, t);
      if |cs| <= |ct| {
        assert cs <= ct;
        PrefixIffInside(BMAX, cs, ct);
      } else {
        assert ct <= cs;
        PrefixIffInside(BMAX, ct, cs);
      }
      assert false;
    }
  }

  /** Decoding undoes encoding, whatever follows the code in the stream. */
  lemma DecodeOfCode(lens: Lengths, sym: nat, rest: seq<bool>)
    requires Used(lens, sym) && !Oversubscribed(lens)
    ensures RefSymbol(lens, Code(lens, sym) + rest) == Some(sym)
  {
    var bits := Code(lens, sym) + rest;
    assert Reads(lens, bits, sym);
    PrefixFree(lens, bits, sym, RefSymbol(lens, bits).value);
  }
}

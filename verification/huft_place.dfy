/**
 Placing one code in the tables (boot/zBoot/inflate.c, the body of `while (a--)` in
 huft_build): filling its slots, stepping to the next code, and leaving the tables
 that are full.
 */
module HuftPlace {
  import opened Bits
  import opened Huffman
  import opened HuftTables
  import opened HuftProgress
  import opened HuftLayout
  import opened HuftSort
  import opened HuftPush

  // ------------------------------------------------------------------
  // Filling slots

  lemma NextMultiple(j: nat, idx: nat, f: nat, start: nat)
    requires f > 0 && start < f && j % f == start
    ensures (j + f) % f == start
    ensures j < idx < j + f ==> idx % f != start
  {
    var q := j / f;
    DivModUnique(j + f, f, q + 1, start);
    if j < idx < j + f {
      if idx - j + start < f {
        DivModUnique(idx, f, q, idx - j + start);
      } else {
        DivModUnique(idx, f, q + 1, idx - j + start - f);
      }
    }
  }

  /** Stores an entry in every f-th slot, from the given one on. */
  method FillSlots(row: seq<Huft>, start: nat, f: nat, r: Huft) returns (row': seq<Huft>)
    requires start < f
    ensures |row'| == |row|
    ensures forall idx :: 0 <= idx < |row| ==> row'[idx] == if idx % f == start then r else row[idx]
  {
    row' := row;
    var j := start;
    DivModUnique(start, f, 0, start);
    forall idx | 0 <= idx < start
      ensures idx % f != start
    {
      DivModUnique(idx, f, 0, idx);
    }
    while j < |row|
      invariant |row'| == |row| && j % f == start
      invariant forall idx :: 0 <= idx < |row| ==> row'[idx] == if idx < j && idx % f == start then r else row[idx]
      invariant forall idx :: 0 <= idx < start ==> idx % f != start
    {
      row' := row'[j := r];
      forall idx | j <= idx < j + f
        ensures idx % f == start <==> idx == j
      {
        NextMultiple(j, idx, f, start);
      }
      NextMultiple(j, j, f, start);
      j := j + f;
    }
  }

  /** The slots that the loop fills are those whose bits start with the code. */
  lemma FilledSlots(f: Info, cs: seq<bool>, r: Huft, row: seq<Huft>, row': seq<Huft>)
    requires f.prefix <= cs && |f.prefix| < |cs| <= |f.prefix| + f.bits && |row| == Pow2(f.bits) == |row'|
    requires forall idx :: 0 <= idx < |row| ==>
      row'[idx] == if idx % Pow2(|cs| - |f.prefix|) == Lsb(cs[|f.prefix|..]) then r else row[idx]
    ensures Filled(f, cs, r, row, row')
  {
    forall idx | 0 <= idx < |row|
      ensures cs <= Slot(f, idx) <==> idx % Pow2(|cs| - |f.prefix|) == Lsb(cs[|f.prefix|..])
    {
      SlotExtends(f, cs, idx);
    }
  }

  lemma ExtendsIff(pre: seq<bool>, cs: seq<bool>, bs: seq<bool>)
    requires pre <= cs && |cs| <= |pre| + |bs|
    ensures cs <= pre + bs <==> cs[|pre|..] == bs[..|cs| - |pre|]
  {
    assert cs == pre + cs[|pre|..];
    assert (pre + bs)[..|cs|] == pre + bs[..|cs| - |pre|];
  }

  lemma SlotExtends(f: Info, cs: seq<bool>, idx: nat)
    requires f.prefix <= cs && |f.prefix| < |cs| <= |f.prefix| + f.bits && idx < Pow2(f.bits)
    ensures cs <= Slot(f, idx) <==> idx % Pow2(|cs| - |f.prefix|) == Lsb(cs[|f.prefix|..])
  {
    var w, n := |f.prefix|, |cs| - |f.prefix|;
    var bs := LsbBits(idx, f.bits);
    ExtendsIff(f.prefix, cs, bs);
    LsbBitsPrefix(idx, f.bits, n);
    hide Lsb, LsbBits;
    if Lsb(bs[..n]) == Lsb(cs[w..]) {
      LsbInjective(bs[..n], cs[w..]);
    }
  }

  // ------------------------------------------------------------------
  // The next code

  /** Binary increment of a string read most significant bit first. */
  function Inc(s: seq<bool>): (t: seq<bool>)
    ensures |t| == |s|
  {
    if s == [] then []
    else if s[|s| - 1] then Inc(s[..|s| - 1]) + [false]
    else s[..|s| - 1] + [true]
  }

  lemma {:induction false} IncValue(s: seq<bool>)
    ensures Msb(Inc(s)) == if Msb(s) + 1 == Pow2(|s|) then 0 else Msb(s) + 1
  {
    if s != [] {
      var n := |s| - 1;
      if s[n] {
        IncValue(s[..n]);
        assert Inc(s)[..n] == Inc(s[..n]) && Inc(s)[n] == false;
      } else {
        assert Inc(s)[..n] == s[..n] && Inc(s)[n] == true;
      }
    }
  }

  /**
   Steps to the next code, which is kept bit-reversed: from the top bit down, ones are
   cleared up to the first zero, which is set. j is a power of two or zero, so masking with
   it asks for one binary digit of i and exclusive-or flips that digit.
   */
  method ReverseIncrement(i: nat, k: nat, ghost cs: seq<bool>) returns (i': nat)
    requires k == |cs| >= 1 && i == Lsb(cs)
    ensures i' == Lsb(Inc(cs))
  {
    hide BitAt;
    i' := i;
    var t := k;
    var j := Pow2(k - 1);
    assert cs[..k] == cs;
    LastDigitAt(cs);
    while j != 0 && BitAt(i', j)
      invariant 0 <= t <= k && j == (if t == 0 then 0 else Pow2(t - 1))
      invariant i' == Lsb(cs[..t]) && Inc(cs) == Inc(cs[..t]) + Zeros(k - t)
      invariant t > 0 ==> BitAt(i', j) == cs[t - 1]
      decreases t
    {
      CarryStep(cs, t);
      i' := i' - j;
      j := j / 2;
      t := t - 1;
    }
    i' := i' + j;
    StopStep(cs, t);
  }

  lemma CarryStep(cs: seq<bool>, t: nat)
    requires 0 < t <= |cs| && cs[t - 1]
    ensures Lsb(cs[..t]) == Lsb(cs[..t - 1]) + Pow2(t - 1)
    ensures Inc(cs[..t]) + Zeros(|cs| - t) == Inc(cs[..t - 1]) + Zeros(|cs| - (t - 1))
    ensures t > 1 ==> BitAt(Lsb(cs[..t - 1]), Pow2(t - 2)) == cs[t - 2] && Pow2(t - 1) / 2 == Pow2(t - 2)
  {
    assert cs[..t][..t - 1] == cs[..t - 1];
    LastDigit(cs[..t]);
    IncCarry(cs, t);
    if t > 1 {
      LastDigitAt(cs[..t - 1]);
    }
  }

  lemma StopStep(cs: seq<bool>, t: nat)
    requires t <= |cs| && (t > 0 ==> !cs[t - 1])
    requires Inc(cs) == Inc(cs[..t]) + Zeros(|cs| - t)
    ensures Lsb(Inc(cs)) == Lsb(cs[..t]) + if t > 0 then Pow2(t - 1) else 0
  {
    LsbZeros(Inc(cs[..t]), |cs| - t);
    if t > 0 {
      assert cs[..t][..t - 1] == cs[..t - 1];
      LastDigit(cs[..t]);
      LsbSnoc(cs[..t - 1], true);
    }
  }

  /** The digit of i that j, a power of two, masks out is one. */
  predicate BitAt(i: nat, j: nat)
    requires j > 0
  {
    (i / j) % 2 == 1
  }

  lemma {:induction false} LsbSnoc(s: seq<bool>, b: bool)
    ensures Lsb(s + [b]) == Lsb(s) + if b then Pow2(|s|) else 0
  {
    if s != [] {
      assert (s + [b])[1..] == s[1..] + [b];
      LsbSnoc(s[1..], b);
    }
  }

  lemma LastDigit(s: seq<bool>)
    requires |s| > 0
    ensures Lsb(s) == Lsb(s[..|s| - 1]) + if s[|s| - 1] then Pow2(|s| - 1) else 0
  {
    hide Lsb, Pow2;
    assert s == s[..|s| - 1] + [s[|s| - 1]];
    LsbSnoc(s[..|s| - 1], s[|s| - 1]);
  }

  lemma TopDigit(x: nat, r: nat, d: nat, b: bool)
    requires r < d && x == r + if b then d else 0
    ensures BitAt(x, d) == b
  {
    DivModUnique(r, d, 0, r);
    DivModUnique(r + d, d, 1, r);
  }

  /** The last bit of a string is its most significant digit when read least significant first. */
  lemma LastDigitAt(s: seq<bool>)
    requires |s| > 0
    ensures BitAt(Lsb(s), Pow2(|s| - 1)) == s[|s| - 1]
  {
    LastDigit(s);
    TopDigit(Lsb(s), Lsb(s[..|s| - 1]), Pow2(|s| - 1), s[|s| - 1]);
  }

  lemma IncCarry(cs: seq<bool>, t: nat)
    requires 0 < t <= |cs| && cs[t - 1]
    ensures Inc(cs[..t]) + Zeros(|cs| - t) == Inc(cs[..t - 1]) + Zeros(|cs| - (t - 1))
  {
    assert cs[..t][..t - 1] == cs[..t - 1];
    assert [false] + Zeros(|cs| - t) == Zeros(|cs| - (t - 1));
  }
}

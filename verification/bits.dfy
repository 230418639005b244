/**
 Bit strings and the two ways DEFLATE reads numbers out of them: data elements
 are packed least significant bit first, Huffman codes most significant bit first.
 */
module Bits {

  function Pow2(n: nat): (r: nat)
    ensures r >= 1
  {
    if n == 0 then 1 else 2 * Pow2(n - 1)
  }

  function Bit(b: bool): nat {
    if b then 1 else 0
  }

  /** The number whose binary digits are `s`, first bit least significant. */
  function Lsb(s: seq<bool>): (r: nat)
    ensures r < Pow2(|s|)
  {
    if s == [] then 0 else Bit(s[0]) + 2 * Lsb(s[1..])
  }

  /** The number whose binary digits are `s`, first bit most significant. */
  function Msb(s: seq<bool>): (r: nat)
    ensures r < Pow2(|s|)
  {
    if s == [] then 0 else 2 * Msb(s[..|s| - 1]) + Bit(s[|s| - 1])
  }

  /** The low `n` binary digits of `x`, least significant first. */
  function LsbBits(x: nat, n: nat): (s: seq<bool>)
    ensures |s| == n
  {
    if n == 0 then [] else [x % 2 == 1] + LsbBits(x / 2, n - 1)
  }

  /** The low `n` binary digits of `x`, most significant first. */
  function MsbBits(x: nat, n: nat): (s: seq<bool>)
    ensures |s| == n
  {
    if n == 0 then [] else MsbBits(x / 2, n - 1) + [x % 2 == 1]
  }

  function Zeros(n: nat): seq<bool> {
    seq(n, _ => false)
  }

  lemma MulAssoc(a: nat, b: nat, c: nat)
    ensures (a * b) * c == a * (b * c)
  {
  }

  lemma MulDistributes(a: nat, b: nat, c: nat)
    ensures (a + b) * c == a * c + b * c
  {
  }

  lemma {:induction false} Pow2Add(a: nat, b: nat)
    ensures Pow2(a + b) == Pow2(a) * Pow2(b)
  {
    if a > 0 {
      Pow2Add(a - 1, b);
      MulAssoc(2, Pow2(a - 1), Pow2(b));
    }
  }

  lemma {:induction false} Pow2Monotone(a: nat, b: nat)
    requires a <= b
    ensures Pow2(a) <= Pow2(b)
    ensures a < b ==> 2 * Pow2(a) <= Pow2(b)
  {
    if a < b {
      Pow2Monotone(a, b - 1);
    }
  }

  lemma {:induction false} LsbAppend(a: seq<bool>, b: seq<bool>)
    ensures Lsb(a + b) == Lsb(a) + Pow2(|a|) * Lsb(b)
  {
    if a == [] {
      assert a + b == b;
    } else {
      LsbAppend(a[1..], b);
      assert (a + b)[1..] == a[1..] + b;
      assert (a + b)[0] == a[0];
      MulAssoc(2, Pow2(|a| - 1), Lsb(b));
    }
  }

  lemma {:induction false} MsbAppend(a: seq<bool>, b: seq<bool>)
    ensures Msb(a + b) == Msb(a) * Pow2(|b|) + Msb(b)
  {
    if b == [] {
      assert a + b == a;
    } else {
      var n := |b| - 1;
      MsbAppend(a, b[..n]);
      assert (a + b)[..|a + b| - 1] == a + b[..n];
      assert (a + b)[|a + b| - 1] == b[n];
      assert Msb(a) * Pow2(|b|) == 2 * (Msb(a) * Pow2(n)) by {
        MulAssoc(Msb(a), Pow2(n), 2);
      }
    }
  }

  /** Splitting off the first `n` bits is division and remainder by a power of two. */
  lemma LsbSplit(s: seq<bool>, n: nat)
    requires n <= |s|
    ensures Lsb(s) % Pow2(n) == Lsb(s[..n])
    ensures Lsb(s) / Pow2(n) == Lsb(s[n..])
  {
    assert Lsb(s) == Lsb(s[..n]) + Pow2(n) * Lsb(s[n..]) by {
      LsbAppend(s[..n], s[n..]);
      assert s[..n] + s[n..] == s;
    }
    DivModUnique(Lsb(s), Pow2(n), Lsb(s[n..]), Lsb(s[..n]));
  }

  lemma DivModUnique(x: nat, d: nat, q: nat, r: nat)
    requires 0 < d && r < d && x == r + d * q
    ensures x / d == q && x % d == r
  {
    var q', r' := x / d, x % d;
    assert x == d * q' + r';
    if q' < q {
      assert d * q' + d <= d * q by { MulMonotone(d, q' + 1, q); }
    } else if q < q' {
      assert d * q + d <= d * q' by { MulMonotone(d, q + 1, q'); }
    }
  }

  lemma MulMonotone(a: nat, x: int, y: int)
    requires x <= y
    ensures a * x <= a * y
  {
  }

  lemma {:induction false} LsbInjective(a: seq<bool>, b: seq<bool>)
    requires |a| == |b| && Lsb(a) == Lsb(b)
    ensures a == b
  {
    if a != [] {
      LsbInjective(a[1..], b[1..]);
      assert a == [a[0]] + a[1..] && b == [b[0]] + b[1..];
    }
  }

  lemma {:induction false} MsbInjective(a: seq<bool>, b: seq<bool>)
    requires |a| == |b| && Msb(a) == Msb(b)
    ensures a == b
  {
    if a != [] {
      var n := |a| - 1;
      MsbInjective(a[..n], b[..n]);
      assert a == a[..n] + [a[n]] && b == b[..n] + [b[n]];
    }
  }

  lemma {:induction false} LsbOfBits(x: nat, n: nat)
    requires x < Pow2(n)
    ensures Lsb(LsbBits(x, n)) == x
  {
    if n > 0 {
      LsbOfBits(x / 2, n - 1);
      assert LsbBits(x, n)[1..] == LsbBits(x / 2, n - 1);
    }
  }

  lemma {:induction false} MsbOfBits(x: nat, n: nat)
    requires x < Pow2(n)
    ensures Msb(MsbBits(x, n)) == x
  {
    if n > 0 {
      MsbOfBits(x / 2, n - 1);
      assert MsbBits(x, n)[..n - 1] == MsbBits(x / 2, n - 1);
    }
  }

  lemma BitsOfLsb(s: seq<bool>)
    ensures LsbBits(Lsb(s), |s|) == s
  {
    LsbOfBits(Lsb(s), |s|);
    LsbInjective(LsbBits(Lsb(s), |s|), s);
  }

  lemma BitsOfMsb(s: seq<bool>)
    ensures MsbBits(Msb(s), |s|) == s
  {
    MsbOfBits(Msb(s), |s|);
    MsbInjective(MsbBits(Msb(s), |s|), s);
  }

  lemma {:induction false} ZerosValue(n: nat)
    ensures Lsb(Zeros(n)) == 0 && Msb(Zeros(n)) == 0
  {
    if n > 0 {
      ZerosValue(n - 1);
      assert Zeros(n)[1..] == Zeros(n - 1);
      assert Zeros(n)[..n - 1] == Zeros(n - 1);
    }
  }

  lemma LsbZeros(s: seq<bool>, n: nat)
    ensures Lsb(s + Zeros(n)) == Lsb(s)
  {
    LsbAppend(s, Zeros(n));
    ZerosValue(n);
  }

  // ------------------------------------------------------------------
  // Positions: a bit string of at most `g` bits names the interval of all
  // g-bit strings that extend it, in lexicographic order.

  /** Where the extensions of `s` to `g` bits begin. */
  function Lo(g: nat, s: seq<bool>): nat
    requires |s| <= g
  {
    Msb(s) * Pow2(g - |s|)
  }

  /** Where they end (exclusive). */
  function Hi(g: nat, s: seq<bool>): nat
    requires |s| <= g
  {
    Lo(g, s) + Pow2(g - |s|)
  }

  lemma LoAppend(g: nat, a: seq<bool>, b: seq<bool>)
    requires |a| + |b| <= g
    ensures Lo(g, a) <= Lo(g, a + b) && Hi(g, a + b) <= Hi(g, a)
    ensures Lo(g, a + b) == Lo(g, a) + Msb(b) * Pow2(g - |a| - |b|)
  {
    hide Msb, Lsb, Pow2;
    var rest, ma, mb, pb := Pow2(g - |a| - |b|), Msb(a), Msb(b), Pow2(|b|);
    MsbAppend(a, b);
    Pow2Add(|b|, g - |a| - |b|);
    MulDistributes(ma * pb, mb, rest);
    MulAssoc(ma, pb, rest);
    MulScale(mb + 1, pb, rest);
    MulDistributes(mb, 1, rest);
  }

  lemma HiBound(g: nat, s: seq<bool>)
    requires |s| <= g
    ensures Lo(g, s) < Hi(g, s) <= Pow2(g)
  {
    LoAppend(g, [], s);
    assert [] + s == s;
  }

  lemma MulScale(x: nat, y: nat, d: nat)
    requires x <= y
    ensures x * d <= y * d
  {
  }

  /** Two strings of the same length name disjoint intervals, in the order of their values. */
  lemma IntervalsOrdered(g: nat, s: seq<bool>, t: seq<bool>)
    requires |s| == |t| <= g
    ensures Msb(s) < Msb(t) ==> Hi(g, s) <= Lo(g, t)
    ensures s != t ==> Msb(s) < Msb(t) || Msb(t) < Msb(s)
  {
    var d := Pow2(g - |s|);
    if Msb(s) < Msb(t) {
      MulScale(Msb(s) + 1, Msb(t), d);
      MulDistributes(Msb(s), 1, d);
    }
    if Msb(s) == Msb(t) {
      MsbInjective(s, t);
    }
  }

  /** `s` is a prefix of the at least as long `t` exactly when `t` lies in the interval of `s`. */
  lemma PrefixIffInside(g: nat, s: seq<bool>, t: seq<bool>)
    requires |s| <= |t| <= g
    ensures s <= t <==> Lo(g, s) <= Lo(g, t) < Hi(g, s)
    ensures s <= t ==> Hi(g, t) <= Hi(g, s)
  {
    var a := t[..|s|];
    LoAppend(g, a, t[|s|..]);
    assert t == a + t[|s|..];
    assert Lo(g, t) < Hi(g, t);
    IntervalsOrdered(g, s, a);
    IntervalsOrdered(g, a, s);
  }

  /** A position that is a multiple of 2^(g-k) is written with zeros after its first k bits. */
  lemma AlignedBits(g: nat, k: nat, c: nat)
    requires k <= g && c < Pow2(k)
    ensures c * Pow2(g - k) < Pow2(g)
    ensures MsbBits(c * Pow2(g - k), g) == MsbBits(c, k) + Zeros(g - k)
    ensures Lo(g, MsbBits(c, k)) == c * Pow2(g - k)
  {
    var s, z := MsbBits(c, k), Zeros(g - k);
    MsbOfBits(c, k);
    MsbAppend(s, z);
    ZerosValue(g - k);
    assert Msb(s + z) == c * Pow2(g - k);
    BitsOfMsb(s + z);
  }
}

/** What is printed can be read: atoi() and scanf undo the conversions of printf. */
module RoundTrip {
  import opened Basics
  import opened Bits
  import opened Doprnt
  import opened Numerals
  import opened Scan

  /** A number in a text: blanks, a sign, digits, and what follows them. */
  function Text(k: nat, minus: bool, ds: string, tail: string): string {
    Repeat(' ', k) + (if minus then "-" else "") + ds + tail
  }

  ghost predicate Readable(ds: string, base: nat, tail: string) {
    && ds != [] && (forall i :: 0 <= i < |ds| ==> IsDigitIn(ds[i], base))
    && (tail == [] || !IsDigitIn(tail[0], base))
  }

  lemma {:induction false} BlanksOf(k: nat, rest: string, newline: bool)
    requires rest != [] && !IsBlank(rest[0], newline)
    ensures |Repeat(' ', k)| == k && Blanks(Repeat(' ', k) + rest, newline) == k
    decreases k
  {
    var s := Repeat(' ', k) + rest;
    if k > 0 {
      BlanksOf(k - 1, rest, newline);
      assert s[0] == ' ' && s[1..] == Repeat(' ', k - 1) + rest;
    } else {
      assert s == rest;
    }
  }

  lemma SpanOf(ds: string, base: nat, tail: string, len: int)
    requires Readable(ds, base, tail) && |ds| <= len
    ensures Span(ds + tail, base, len) == |ds| && (ds + tail)[..|ds|] == ds && AllHex(ds)
  {
    var s := ds + tail;
    assert forall i :: 0 <= i < |ds| ==> s[i] == ds[i];
    assert tail != [] ==> s[|ds|] == tail[0];
    SpanIs(s, base, len, |ds|);
  }

  /** The parts the readers see. */
  lemma TextParts(k: nat, minus: bool, ds: string, base: nat, tail: string, newline: bool)
    requires Readable(ds, base, tail)
    ensures var s := Text(k, minus, ds, tail);
      && Blanks(s, newline) == k && |s| == k + (if minus then 1 else 0) + |ds| + |tail|
      && s[k..] != [] && (s[k..][0] == '-' <==> minus) && Sign(s[k..]) == (if minus then 1 else 0)
      && s[k..][Sign(s[k..])..] == ds + tail
  {
    hide Repeat, Blanks, Span;
    var rest := Signed(minus, ds + tail);
    SignedParts(minus, ds, base, tail);
    TextIs(k, minus, ds, tail);
    BlanksOf(k, rest, newline);
    Prefixed(Repeat(' ', k), rest);
  }

  function Signed(minus: bool, s: string): string {
    (if minus then "-" else "") + s
  }

  lemma SignedParts(minus: bool, ds: string, base: nat, tail: string)
    requires Readable(ds, base, tail)
    ensures var rest := Signed(minus, ds + tail);
      && |rest| == (if minus then 1 else 0) + |ds| + |tail| && rest != []
      && !IsBlank(rest[0], true) && (rest[0] == '-' <==> minus)
      && Sign(rest) == (if minus then 1 else 0) && rest[Sign(rest)..] == ds + tail
  {
    assert IsDigitIn(ds[0], base);
    assert (ds + tail)[0] == ds[0];
  }

  lemma TextIs(k: nat, minus: bool, ds: string, tail: string)
    ensures Text(k, minus, ds, tail) == Repeat(' ', k) + Signed(minus, ds + tail)
  {
  }

  lemma Prefixed(a: string, b: string)
    ensures (a + b)[|a|..] == b
  {
  }

  lemma ReadText(k: nat, minus: bool, ds: string, tail: string)
    requires Readable(ds, 10, tail)
    ensures AllHex(ds) && ReadInt(Text(k, minus, ds, tail)) == Negated(minus, Wrap(Value(ds, 10)))
  {
    hide Text, Blanks, Sign, Span, Value, Wrap;
    TextParts(k, minus, ds, 10, tail, false);
    SpanOf(ds, 10, tail, |ds + tail|);
  }

  lemma ScanText(k: nat, minus: bool, ds: string, base: nat, tail: string, len: int)
    requires Readable(ds, base, tail) && |ds| < len
    ensures AllHex(ds)
    ensures Scanning(Text(k, minus, ds, tail), base, len) ==
            Scanned(true, Negated(minus, Wrap(Value(ds, base))), k + (if minus then 1 else 0) + |ds|, tail == [],
                    (if minus then 1 else 0) + |ds|)
  {
    hide Text, Blanks, Sign, Span, Value, Wrap;
    TextParts(k, minus, ds, base, tail, true);
    SpanOf(ds, base, tail, len - (if minus then 1 else 0));
  }

  // ------------------------------------------------------------------
  // Zeros on either side

  lemma {:induction false} ZerosBefore(k: nat, s: string, base: nat)
    requires AllHex(s)
    ensures AllHex(Repeat('0', k)) && |Repeat('0', k)| == k
    ensures AllHex(Repeat('0', k) + s) && Value(Repeat('0', k) + s, base) == Value(s, base)
    decreases k, |s|
  {
    RepeatMore('0', k);
    AllZeros(k);
    var t := Repeat('0', k) + s;
    hide Repeat;
    if s != [] {
      var n := |s| - 1;
      ZerosBefore(k, s[..n], base);
      assert t[..|t| - 1] == Repeat('0', k) + s[..n];
    } else if k > 0 {
      RepeatMore('0', k - 1);
      ZerosBefore(k - 1, [], base);
      assert t == Repeat('0', k) && t[..k - 1] == Repeat('0', k - 1) + [];
    } else {
      assert t == [];
    }
  }

  lemma {:induction false} AllZeros(k: nat)
    ensures |Repeat('0', k)| == k && forall i :: 0 <= i < k ==> Repeat('0', k)[i] == '0'
    decreases k
  {
    if k > 0 {
      AllZeros(k - 1);
    }
  }

  lemma {:induction false} ZerosAfter(s: string, k: nat, base: nat)
    requires AllHex(s)
    ensures AllHex(s + Repeat('0', k)) && Value(s + Repeat('0', k), base) == Value(s, base) * Power(base, k)
    decreases k
  {
    AllZeros(k);
    if k == 0 {
      assert s + Repeat('0', 0) == s;
    } else {
      ZerosAfter(s, k - 1, base);
      RepeatMore('0', k - 1);
      var t := s + Repeat('0', k);
      assert t[..|t| - 1] == s + Repeat('0', k - 1) && t[|t| - 1] == '0';
      Product(Value(s, base), base, Power(base, k - 1));
    }
  }

  // ------------------------------------------------------------------
  // Fields

  /** How many fill characters a field takes. */
  function Padding(minus: bool, s: string, fmin: int): nat {
    var pad := (if 0 <= fmin <= 80 then fmin else 0) - |s| - (if minus then 1 else 0);
    if pad < 0 then 0 else pad
  }

  /** The zeros a field leaves after the digits. */
  function Trailing(minus: bool, s: string, leftjust: bool, fill: char, fmin: int): nat {
    if leftjust && fill == '0' then Padding(minus, s, fmin) else 0
  }

  /** A field is a text whose digits denote the numeral's value, times a power for trailing zeros. */
  lemma FieldText(minus: bool, s: string, base: nat, leftjust: bool, fill: char, fmin: int)
      returns (k: nat, ds: string, tail: string)
    requires (fill == ' ' || fill == '0') && Readable(s, base, [])
    ensures Field(minus, s, leftjust, fill, fmin) == Text(k, minus, ds, tail)
    ensures Readable(ds, base, tail) && |ds| <= |s| + 80 && AllHex(s) && AllHex(ds)
    ensures Value(ds, base) == Value(s, base) * Power(base, Trailing(minus, s, leftjust, fill, fmin))
    ensures !leftjust ==> tail == []
    ensures |ds| == |s| + if fill == '0' then Padding(minus, s, fmin) else 0
  {
    hide Power, Field, Text, Value, Repeat;
    var p := Padding(minus, s, fmin);
    RepeatMore(fill, p);
    PowerZero(base);
    if fill == ' ' {
      k, ds, tail := if leftjust then 0 else p, s, if leftjust then Repeat(' ', p) else [];
      BlankFill(p);
    } else if leftjust {
      k, ds, tail := 0, s + Repeat('0', p), [];
      AllZeros(p);
      ZerosAfter(s, p, base);
    } else {
      k, ds, tail := 0, Repeat('0', p) + s, [];
      AllZeros(p);
      ZerosBefore(p, s, base);
    }
    FieldIs(minus, s, leftjust, fill, fmin, k, ds, tail);
  }

  lemma PowerZero(base: nat)
    ensures Power(base, 0) == 1
  {
  }

  lemma BlankFill(p: nat)
    ensures Repeat(' ', p) != [] ==> Repeat(' ', p)[0] == ' '
  {
  }

  lemma FieldIs(minus: bool, s: string, leftjust: bool, fill: char, fmin: int, k: nat, ds: string, tail: string)
    requires fill == ' ' || fill == '0'
    requires var p := Padding(minus, s, fmin);
      (k, ds, tail) == if fill == ' ' then (if leftjust then (0, s, Repeat(' ', p)) else (p, s, []))
                       else if leftjust then (0, s + Repeat('0', p), []) else (0, Repeat('0', p) + s, [])
    ensures Field(minus, s, leftjust, fill, fmin) == Text(k, minus, ds, tail)
  {
    hide Repeat;
    var p := Padding(minus, s, fmin);
    var sign := if minus then "-" else "";
    NoPad(fill, (if 0 <= fmin <= 80 then fmin else 0) - |s| - |sign|, 0);
    NoPad(' ', 0, 0);
    var pad := Repeat(fill, p);
    assert pad == Repeat(fill, (if 0 <= fmin <= 80 then fmin else 0) - |s| - |sign|);
    Unit([]);
    Unit(sign);
    Unit(pad);
    Unit(sign + pad);
    Assoc(sign, s, pad);
    Assoc(sign, pad, s);
    Unit(sign + (pad + s));
    Unit(sign + (s + pad));
    Unit(pad + sign + s);
  }

  lemma Unit(x: string)
    ensures [] + x == x && x + [] == x
  {
  }

  lemma Assoc(x: string, y: string, z: string)
    ensures x + y + z == x + (y + z)
  {
  }

  // ------------------------------------------------------------------
  // What reading gives

  lemma NumeralReadable(n: nat, base: nat)
    requires base == 8 || base == 10 || base == 16
    ensures Readable(Numeral(n, base), base, []) && AllHex(Numeral(n, base)) && Value(Numeral(n, base), base) == n
  {
    NumeralMeans(n, base);
    var s := Numeral(n, base);
    forall i | 0 <= i < |s|
      ensures IsDigitIn(s[i], base)
    {
      assert s[i] in s;
    }
  }

  /** Negating before wrapping around or after it makes no difference. */
  lemma SignedWrap(minus: bool, x: int)
    ensures Negated(minus, Wrap(x)) == Wrap(if minus then -x else x)
  {
    WrapStep(x, -1, 0);
  }

  lemma SignedProduct(v: long, p: nat)
    ensures (if v < 0 then -(Magnitude(v) * p) else Magnitude(v) * p) == v as int * p
  {
  }

  /** What atoi() makes of a printed decimal: the number times a power of ten for zeros that follow it. */
  lemma DecimalRead(v: long, leftjust: bool, fill: char, fmin: int)
    requires fill == ' ' || fill == '0'
    ensures var t := Trailing(v < 0, Numeral(Magnitude(v), 10), leftjust, fill, fmin);
      ReadInt(Printed(D, v, leftjust, fill, fmin)) == Wrap(v as int * Power(10, t))
  {
    hide Numeral, Field, Text, Value, Wrap, Power, Readable, ReadInt;
    var s := Numeral(Magnitude(v), 10);
    var t := Trailing(v < 0, s, leftjust, fill, fmin);
    NumeralReadable(Magnitude(v), 10);
    var k, ds, tail := FieldText(v < 0, s, 10, leftjust, fill, fmin);
    ReadText(k, v < 0, ds, tail);
    SignedWrap(v < 0, Magnitude(v) * Power(10, t));
    SignedProduct(v, Power(10, t));
  }

  /** An odd factor can be cancelled modulo a power of two. */
  lemma {:induction false} CancelOdd(v: int, o: int, q: int, j: nat) returns (r: int)
    requires o % 2 == 1 && v * o == q * Pow2(j)
    ensures v == r * Pow2(j)
    decreases j
  {
    if j == 0 {
      r := v;
    } else {
      var p := Pow2(j - 1);
      Product(q, 2, p);
      EvenFactor(v, o, q * p);
      var w := v / 2;
      Halve(w, o, q * p);
      r := CancelOdd(w, o, q, j - 1);
      Product(r, 2, p);
    }
  }

  lemma EvenFactor(v: int, o: int, m: int)
    requires o % 2 == 1 && v * o == m * 2
    ensures v == v / 2 * 2
  {
    var a, b := v / 2, o / 2;
    var r := v % 2;
    assert v == 2 * a + r && o == 2 * b + 1;
    assert v * o == 2 * (a * o + r * b) + r;
  }

  lemma Halve(w: int, o: int, m: int)
    requires w * 2 * o == m * 2
    ensures w * o == m
  {
  }

  lemma TensAreEven(t: nat)
    requires t >= 1
    ensures Power(10, t) % 2 == 0
  {
    assert Power(10, t) == 2 * (5 * Power(10, t - 1));
  }

  lemma Word32()
    ensures Pow2(32) == WORD
  {
    assert Pow2(4) == 16;
    assert Pow2(8) == 256;
    assert Pow2(12) == 0x1000;
    assert Pow2(16) == 0x1_0000;
    assert Pow2(20) == 0x10_0000;
    assert Pow2(24) == 0x100_0000;
    assert Pow2(28) == 0x1000_0000;
  }

  lemma WrapDiffers(x: int) returns (m: int)
    ensures Wrap(x) == x + m * WORD
  {
    m := -((x + WORD / 2) / WORD);
  }

  lemma OnlyZero(v: long, t: nat)
    requires t >= 1 && Wrap(v as int * Power(10, t)) == v
    ensures v == 0
  {
    hide Wrap, Power;
    var p := Power(10, t);
    var m := WrapDiffers(v as int * p);
    TensAreEven(t);
    Word32();
    var o := p as int - 1;
    assert v as int * o == -m * WORD;
    var r := CancelOdd(v, o, -m, 32);
    assert v as int == r * WORD;
  }

  /**
   atoi() gives back every long that %d prints, the least one included, in a field of any
   width, unless zeros fill the field on the right of a number that is not 0.
   */
  lemma DecimalReadBack(v: long, leftjust: bool, fill: char, fmin: int)
    requires fill == ' ' || fill == '0'
    ensures ReadInt(Printed(D, v, leftjust, fill, fmin)) == v <==>
            v == 0 || Trailing(v < 0, Numeral(Magnitude(v), 10), leftjust, fill, fmin) == 0
  {
    hide Wrap, ReadInt, Printed, Numeral;
    var t := Trailing(v < 0, Numeral(Magnitude(v), 10), leftjust, fill, fmin);
    DecimalRead(v, leftjust, fill, fmin);
    WrapSelf(v);
    if t >= 1 && Wrap(v as int * Power(10, t)) == v {
      OnlyZero(v, t);
    }
  }

  lemma WrapSelf(v: long)
    ensures Wrap(v) == v && Wrap(0) == 0
  {
  }

  /** The base a conversion is read with. */
  function BaseOf(f: Conversion): nat {
    match f
    case D => 10
    case U => 10
    case O => 8
    case X => 16
  }

  /** The length scanf uses when no width is given. */
  const NO_WIDTH: int := 30000

  lemma {:induction false} ShortNumeral(n: nat, base: nat, w: nat)
    requires 2 <= base <= 16 && n < Pow2(w) && w >= 1
    ensures |Numeral(n, base)| <= w
    decreases w
  {
    if w == 1 {
      assert Pow2(1) == 2;
    } else if n >= base {
      Less(n, base);
      Halved(n, base, Pow2(w - 1));
      ShortNumeral(n / base, base, w - 1);
    }
  }

  lemma Halved(n: nat, base: nat, p: nat)
    requires base >= 2 && n < 2 * p
    ensures n / base < p
  {
    Less(n, base);
    TwiceAtMost(n / base, base);
  }

  lemma TwiceAtMost(q: nat, base: nat)
    requires base >= 2
    ensures q * 2 <= q * base
  {
  }

  /**
   scanf reads back every word that %d, %u, %o or %x printed right-justified, and stops where
   it ends. Its copy of the characters overruns numbuf exactly if zeros fill a field of 64 or
   more.
   */
  lemma ScanReadsBack(f: Conversion, v: long, fill: char, fmin: int, rest: string)
    requires fill == ' ' || fill == '0'
    requires rest == [] || !IsDigitIn(rest[0], BaseOf(f))
    ensures var p := Printed(f, v, false, fill, fmin);
      var r := Scanning(p + rest, BaseOf(f), NO_WIDTH);
      && r == Scanned(true, v, |p|, rest == [], r.copied)
      && (FitsNumbuf(r) <==> fill == ' ' || !(NUMBUF <= fmin <= 80))
  {
    hide Numeral, Field, Text, Value, Wrap, Power, Scanning, Pow2, Repeat, AllHex, Readable, Negated;
    var minus := f.D? && v < 0;
    var n := if f.D? then Magnitude(v) else Unsigned(v);
    var base := BaseOf(f);
    var s := Numeral(n, base);
    NumeralReadable(n, base);
    Word32();
    ShortNumeral(n, base, 32);
    var k, ds, tail := FieldText(minus, s, base, false, fill, fmin);
    assert Value(ds, base) == n by {
      PowerZero(base);
    }
    TextMore(k, minus, ds, rest);
    ReadableBefore(ds, base, rest);
    ScanText(k, minus, ds, base, rest, NO_WIDTH);
    SignedWrap(minus, n);
    WrapSelf(v);
  }

  lemma ReadableBefore(ds: string, base: nat, rest: string)
    requires Readable(ds, base, []) && (rest == [] || !IsDigitIn(rest[0], base))
    ensures Readable(ds, base, rest)
  {
  }

  lemma TextMore(k: nat, minus: bool, ds: string, rest: string)
    ensures Text(k, minus, ds, []) + rest == Text(k, minus, ds, rest)
    ensures |Text(k, minus, ds, [])| == k + (if minus then 1 else 0) + |ds|
  {
    RepeatMore(' ', k);
  }

  /** A field is as wide as asked for, up to 80, but never cuts the number off. */
  lemma FieldWidth(minus: bool, s: string, leftjust: bool, fill: char, fmin: int)
    requires fill == ' ' || fill == '0'
    ensures |Field(minus, s, leftjust, fill, fmin)| ==
      Max(if 0 <= fmin <= 80 then fmin else 0, |s| + if minus then 1 else 0)
  {
    hide Repeat;
    var p := (if 0 <= fmin <= 80 then fmin else 0) - |s| - if minus then 1 else 0;
    NoPad(fill, p, 0);
    if p > 0 {
      RepeatMore(fill, p);
    }
  }
}

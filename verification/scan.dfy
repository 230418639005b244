/**
 Reading numbers: atoi (lib/libxc/atoi.c) and the numeric part of scanf
 (lib/libxc/doscan.c), both wrapping around at 32 bits.
 */
module Scan {
  import opened Basics
  import opened Numerals

  predicate IsBlank(c: char, newline: bool) {
    c == ' ' || c == '\t' || (newline && c == '\n')
  }

  predicate IsDigitIn(c: char, base: nat) {
    IsDecimal(c) || (base == 16 && IsHex(c))
  }

  /** How many blanks a string starts with. */
  function Blanks(s: string, newline: bool): (k: nat)
    ensures k <= |s| && (forall i :: 0 <= i < k ==> IsBlank(s[i], newline)) && (k < |s| ==> !IsBlank(s[k], newline))
  {
    if s == [] || !IsBlank(s[0], newline) then 0 else Blanks(s[1..], newline) + 1
  }

  /** How many digits a string starts with, counting no more than len. */
  function Span(s: string, base: nat, len: int): (k: nat)
    ensures k <= |s| && (forall i :: 0 <= i < k ==> IsDigitIn(s[i], base)) && k <= if len < 0 then 0 else len
    ensures k < |s| && k < len ==> !IsDigitIn(s[k], base)
  {
    if s == [] || len <= 0 || !IsDigitIn(s[0], base) then 0 else Span(s[1..], base, len - 1) + 1
  }

  function Sign(s: string): nat {
    if s != [] && (s[0] == '-' || s[0] == '+') then 1 else 0
  }

  function Negated(minus: bool, n: long): long {
    if minus then Wrap(-(n as int)) else n
  }

  /** The number at the start of a string: blanks, one sign, and the digits after it. */
  function ReadInt(s: string): long {
    var t := s[Blanks(s, false)..];
    var u := t[Sign(t)..];
    Negated(t != [] && t[0] == '-', Wrap(Value(u[..Span(u, 10, |u|)], 10)))
  }

  lemma WrapStep(v: int, base: int, d: int)
    ensures Wrap(Wrap(v) * base + d) == Wrap(v * base + d)
  {
    var k := (v + WORD / 2) / WORD;
    assert Wrap(v) == v - k * WORD;
    var m := k * base;
    assert Wrap(v) * base + d == v * base + d - m * WORD by {
      assert k * WORD * base == k * base * WORD;
      assert (v - k * WORD) * base == v * base - k * WORD * base;
    }
    WrapPeriod(v * base + d, m);
  }

  lemma WrapPeriod(x: int, m: int)
    ensures Wrap(x - m * WORD) == Wrap(x)
  {
  }

  lemma ValueMore(s: string, k: nat, base: nat)
    requires k < |s| && AllHex(s[..k + 1])
    ensures AllHex(s[..k]) && Value(s[..k + 1], base) == Value(s[..k], base) * base + DigitValue(s[k])
  {
    var t := s[..k + 1];
    assert t[..|t| - 1] == s[..k];
    assert forall i :: 0 <= i < k ==> s[..k][i] == t[i];
  }

  lemma {:induction false} SpanIs(s: string, base: nat, len: int, k: nat)
    requires k <= |s| && (forall i :: 0 <= i < k ==> IsDigitIn(s[i], base)) && (k == 0 || k <= len)
    requires k == |s| || k >= len || !IsDigitIn(s[k], base)
    ensures Span(s, base, len) == k
    decreases k
  {
    if k > 0 {
      assert IsDigitIn(s[0], base);
      assert forall i :: 0 <= i < k - 1 ==> s[1..][i] == s[i + 1];
      SpanIs(s[1..], base, len - 1, k - 1);
    }
  }

  /** The loop of atoi() over the digits. */
  method ReadDigits(p: string, i0: nat) returns (n: long)
    requires i0 <= |p|
    ensures var u := p[i0..]; n == Wrap(Value(u[..Span(u, 10, |u|)], 10))
  {
    hide Wrap, Value, DigitValue, Span;
    ghost var u := p[i0..];
    var i := i0;
    Nothing(u, 10);
    n := 0;
    while i < |p| && '0' <= p[i] <= '9'
      invariant i0 <= i <= |p|
      invariant forall k :: 0 <= k < i - i0 ==> IsDecimal(u[k])
      invariant n == Wrap(Value(u[..i - i0], 10))
    {
      ghost var j := i - i0;
      assert u[j] == p[i];
      ValueMore(u, j, 10);
      WrapStep(Value(u[..j], 10), 10, DigitValue(p[i]));
      DecimalValue(p[i]);
      n := Wrap(n * 10 + p[i] as int - '0' as int);
      i := i + 1;
    }
    SpanIs(u, 10, |u|, i - i0);
  }

  lemma Nothing(s: string, base: nat)
    ensures s[..0] == [] && Value(s[..0], base) == 0 && Wrap(0) == 0
  {
  }

  lemma DecimalValue(c: char)
    requires IsDecimal(c)
    ensures DigitValue(c) == c as int - '0' as int
  {
  }

  /** atoi() */
  method Atoi(p: string) returns (r: long)
    ensures r == ReadInt(p)
  {
    hide Wrap, Value, Span;
    var i := 0;
    while i < |p| && (p[i] == ' ' || p[i] == '\t')
      invariant i <= Blanks(p, false)
    {
      i := i + 1;
    }
    ghost var t := p[Blanks(p, false)..];
    var f := false;
    if i < |p| && p[i] == '-' {
      f := true;
      i := i + 1;
    } else if i < |p| && p[i] == '+' {
      i := i + 1;
    }
    assert t[Sign(t)..] == p[i..];
    var n := ReadDigits(p, i);
    r := if f then Wrap(-(n as int)) else n;
  }

  // ------------------------------------------------------------------
  // scanf

  /**
   ok: something was read and stored. used: characters taken. eof: the input ended. copied:
   characters put into numbuf, which are the minus sign and the digits.
   */
  datatype Scanned = Scanned(ok: bool, value: long, used: nat, eof: bool, copied: nat)

  /** The size of numbuf. */
  const NUMBUF: nat := 64

  /** The characters copied and the null that ends them stay inside numbuf. */
  predicate FitsNumbuf(r: Scanned) {
    r.copied < NUMBUF
  }

  /** What a numeric conversion of scanf reads from s: blanks, one sign, at most len characters. */
  function Scanning(s: string, base: nat, len: int): Scanned {
    var b := Blanks(s, true);
    var t := s[b..];
    var u := t[Sign(t)..];
    var minus := t != [] && t[0] == '-';
    var k := Span(u, base, len - Sign(t));
    Scanned(minus || k > 0, Negated(minus, Wrap(Value(u[..k], base))), b + Sign(t) + k, b + Sign(t) + k == |s|,
            (if minus then 1 else 0) + k)
  }

  /** The value of a digit, added to the shifted value as _innum() shifts it. */
  method Accumulate(lcval0: long, c: char, base: nat) returns (lcval: long)
    requires (base == 8 || base == 10 || base == 16) && IsDigitIn(c, base)
    ensures lcval == Wrap(lcval0 as int * base + DigitValue(c))
  {
    hide Wrap;
    lcval := lcval0;
    if base == 8 {
      lcval := Wrap(lcval as int * 8);
    } else if base == 10 {
      var four := Wrap(lcval as int * 4);
      var five := Wrap(four as int + lcval as int);
      lcval := Wrap(five as int * 2);
      Tenfold(lcval0);
    } else {
      lcval := Wrap(lcval as int * 16);
    }
    var d: int;
    if '0' <= c <= '9' {
      d := c as int - '0' as int;
    } else if 'a' <= c <= 'f' {
      d := c as int - ('a' as int - 10);
    } else {
      d := c as int - ('A' as int - 10);
    }
    WrapStep(lcval0 as int * base, 1, d);
    lcval := Wrap(lcval as int + d);
  }

  lemma Tenfold(x: long)
    ensures Wrap(Wrap(Wrap(x as int * 4) + x as int) * 2) == Wrap(x as int * 10)
  {
    WrapStep(x as int * 4, 1, x);
    WrapStep(x as int * 5, 2, 0);
  }

  /** The loop of _innum() over the digits; it stops at the first character that is not one. */
  method ScanDigits(s: string, i0: nat, base: nat, len0: int) returns (lcval: long, i: nat)
    requires i0 <= |s| && (base == 8 || base == 10 || base == 16)
    ensures var u := s[i0..]; var k := Span(u, base, len0);
      i == i0 + k && lcval == Wrap(Value(u[..k], base))
  {
    hide Wrap, Value, DigitValue, Span;
    ghost var u := s[i0..];
    i := i0;
    var len := len0 - 1;
    Nothing(u, base);
    lcval := 0;
    while len >= 0 && i < |s| && IsDigitIn(s[i], base)
      invariant i0 <= i <= |s| && len == len0 - 1 - (i - i0) && (len >= -1 || i == i0)
      invariant forall k :: 0 <= k < i - i0 ==> IsDigitIn(u[k], base)
      invariant lcval == Wrap(Value(u[..i - i0], base))
    {
      ghost var j := i - i0;
      assert u[j] == s[i];
      ValueMore(u, j, base);
      WrapStep(Value(u[..j], base), base, DigitValue(s[i]));
      lcval := Accumulate(lcval, s[i], base);
      i := i + 1;
      len := len - 1;
    }
    SpanIs(u, base, len0, i - i0);
  }

  method SkipBlanks(s: string) returns (i: nat)
    ensures i == Blanks(s, true)
  {
    i := 0;
    while i < |s| && (s[i] == ' ' || s[i] == '\t' || s[i] == '\n')
      invariant i <= Blanks(s, true)
    {
      i := i + 1;
    }
  }

  /** _innum() for d, o and x, into an int or a long. The character that ends the number is put back. */
  method Innum(s: string, base: nat, len0: int) returns (r: Scanned)
    requires base == 8 || base == 10 || base == 16
    ensures r == Scanning(s, base, len0)
  {
    hide Scanning, Wrap, Value, Span, Blanks, Sign;
    var i := SkipBlanks(s);
    ghost var b := i;
    var len := len0;
    var np := 0;
    var negflg := false;
    if i < |s| && s[i] == '-' {
      negflg := true;
      np := np + 1;
      i := i + 1;
      len := len - 1;
    } else if i < |s| && s[i] == '+' {
      len := len - 1;
      i := i + 1;
    }
    ScanningAt(s, base, len0, b, i);
    var lcval, end := ScanDigits(s, i, base, len);
    if negflg {
      lcval := Wrap(-(lcval as int));
    }
    np := np + (end - i);
    r := Scanned(np > 0, lcval, end, end == |s|, np);
  }

  /** A width below the size of numbuf is safe whatever the input. */
  lemma NarrowFits(s: string, base: nat, len: int)
    requires 1 <= len < NUMBUF
    ensures FitsNumbuf(Scanning(s, base, len))
  {
    hide Value, Wrap;
  }

  /** What is read, with the blanks ending at b and the sign at i. */
  lemma ScanningAt(s: string, base: nat, len: int, b: nat, i: nat)
    requires b == Blanks(s, true) <= |s|
    requires i == b + if b < |s| && (s[b] == '-' || s[b] == '+') then 1 else 0
    ensures i <= |s|
    ensures var minus := b < |s| && s[b] == '-';
      var k := Span(s[i..], base, len - (i - b));
      Scanning(s, base, len) ==
        Scanned(minus || k > 0, Negated(minus, Wrap(Value(s[i..][..k], base))), i + k, i + k == |s|,
                (if minus then 1 else 0) + k)
  {
    hide Blanks, Wrap, Value, Span, Negated;
    assert s[b..][i - b..] == s[i..];
  }

  // ------------------------------------------------------------------
  // What is read from a text in parts

  predicate Blank(c: char, newline: bool) {
    c == ' ' || c == '\t' || (newline && c == '\n')
  }

  predicate Digit(c: char, base: nat) {
    '0' <= c <= '9' || (base == 16 && ('a' <= c <= 'f' || 'A' <= c <= 'F'))
  }

  /** Blanks, at most one sign, digits, and something that is neither. */
  predicate Parts(blanks: string, sign: string, ds: string, tail: string, base: nat, newline: bool) {
    && (forall i :: 0 <= i < |blanks| ==> Blank(blanks[i], newline))
    && (sign == "" || sign == "-" || sign == "+")
    && (forall i :: 0 <= i < |ds| ==> Digit(ds[i], base))
    && (tail != "" ==> !Digit(tail[0], base))
    && (tail != "" && ds == "" && sign == "" ==> !Blank(tail[0], newline) && tail[0] != '-' && tail[0] != '+')
  }

  function Signed(sign: string, n: nat): long {
    Wrap(if sign == "-" then -(n as int) else n)
  }

  lemma {:induction false} BlanksAre(s: string, newline: bool, k: nat)
    requires k <= |s| && (forall i :: 0 <= i < k ==> IsBlank(s[i], newline)) && (k < |s| ==> !IsBlank(s[k], newline))
    ensures Blanks(s, newline) == k
    decreases k
  {
    if k > 0 {
      BlanksAre(s[1..], newline, k - 1);
    }
  }

  lemma PartsAt(blanks: string, sign: string, ds: string, tail: string, base: nat, newline: bool)
    requires Parts(blanks, sign, ds, tail, base, newline)
    ensures var s := blanks + sign + ds + tail;
      var b := |blanks|;
      && Blanks(s, newline) == b && s[b..] == sign + ds + tail && Sign(s[b..]) == |sign|
      && s[b + |sign|..] == ds + tail && (b < |s| && s[b] == '-' <==> sign == "-")
      && (b < |s| && s[b] == '+' <==> sign == "+")
  {
    var s := blanks + sign + ds + tail;
    var b := |blanks|;
    forall i | 0 <= i < b
      ensures IsBlank(s[i], newline)
    {
      assert s[i] == blanks[i];
    }
    FirstOf(sign, ds, tail, base, newline);
    assert s[b..] == sign + ds + tail;
    assert b < |s| ==> s[b] == s[b..][0];
    BlanksAre(s, newline, b);
    assert s[b + |sign|..] == ds + tail;
  }

  lemma FirstOf(sign: string, ds: string, tail: string, base: nat, newline: bool)
    requires Parts("", sign, ds, tail, base, newline)
    ensures var t := sign + ds + tail;
      t != "" ==> !IsBlank(t[0], newline) && (t[0] == '-' <==> sign == "-") && (t[0] == '+' <==> sign == "+")
  {
  }

  function AtMost(n: nat, room: int): (k: nat)
    ensures k <= n
  {
    if room < 0 then 0 else if room < n then room else n
  }

  lemma SpanOfDigits(ds: string, tail: string, base: nat, len: int)
    requires (forall i :: 0 <= i < |ds| ==> Digit(ds[i], base)) && (tail != "" ==> !Digit(tail[0], base))
    ensures Span(ds + tail, base, len) == AtMost(|ds|, len)
  {
    var u := ds + tail;
    var k := AtMost(|ds|, len);
    forall i | 0 <= i < k
      ensures IsDigitIn(u[i], base)
    {
      assert u[i] == ds[i] && Digit(ds[i], base);
    }
    SpanIs(u, base, len, k);
  }

  /** atoi() reads the digits after blanks and one sign, modulo 2^32. */
  lemma AtoiReads(blanks: string, sign: string, ds: string, tail: string)
    requires Parts(blanks, sign, ds, tail, 10, false)
    ensures ReadInt(blanks + sign + ds + tail) == Signed(sign, Value(ds, 10))
  {
    hide Blanks, Sign, Span, Value, Wrap, Parts;
    PartsAt(blanks, sign, ds, tail, 10, false);
    DigitsOnly(blanks, sign, ds, tail, 10, false);
    SpanOfDigits(ds, tail, 10, |ds + tail|);
    assert (ds + tail)[..|ds|] == ds;
    NegatedIs(sign == "-", Value(ds, 10));
  }

  lemma DigitsOnly(blanks: string, sign: string, ds: string, tail: string, base: nat, newline: bool)
    requires Parts(blanks, sign, ds, tail, base, newline)
    ensures (forall i :: 0 <= i < |ds| ==> Digit(ds[i], base)) && (tail != "" ==> !Digit(tail[0], base))
    ensures |sign| == if sign == "-" || sign == "+" then 1 else 0
  {
  }

  lemma NegatedIs(minus: bool, n: nat)
    ensures Negated(minus, Wrap(n)) == Wrap(if minus then -(n as int) else n)
  {
    WrapStep(n, -1, 0);
  }

  /** So does a numeric conversion of scanf, which also passes newlines and counts the sign and the digits. */
  lemma ScanReads(s: string, blanks: string, sign: string, ds: string, tail: string, base: nat, len: int)
    requires Parts(blanks, sign, ds, tail, base, true) && s == blanks + sign + ds + tail
    ensures var k := AtMost(|ds|, len - |sign|);
      var taken := |blanks| + |sign| + k;
      Scanning(s, base, len) ==
        Scanned(sign == "-" || k > 0, Signed(sign, Value(ds[..k], base)), taken, taken == |s|,
                (if sign == "-" then 1 else 0) + k)
  {
    hide Blanks, Sign, Span, Value, Wrap, Parts, Scanning, AtMost, Digit, Signed, Negated;
    PartsAt(blanks, sign, ds, tail, base, true);
    DigitsOnly(blanks, sign, ds, tail, base, true);
    var i, k := |blanks| + |sign|, AtMost(|ds|, len - |sign|);
    SpanOfDigits(ds, tail, base, len - |sign|);
    assert (ds + tail)[..k] == ds[..k];
    SignedIs(sign, Value(ds[..k], base));
    ScanningAt(s, base, len, |blanks|, i);
    assert s[i..] == ds + tail;
  }

  lemma SignedIs(sign: string, n: nat)
    ensures Signed(sign, n) == Negated(sign == "-", Wrap(n))
  {
    hide Wrap;
    NegatedIs(sign == "-", n);
  }
}

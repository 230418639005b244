/**
 unzip() of boot/zBoot/unzip.c for a gzip member, from behind its header: inflate, and check
 the checksum and the length that follow (section 2.3.1 of RFC 1952).
 */
module Unzip {
  import opened Basics
  import opened Bits
  import opened Deflate
  import opened Crc32
  import opened CrcTheorems
  import opened Encoder
  import opened Encoded
  import opened Inflate
  import opened Window

  /** What unzip() ends with; all but the first stop the machine with a message. */
  datatype Verdict = Accepted | InvalidFormat | UnexpectedEnd | CrcError | LengthError

  /** Four bytes as a word, lowest first. */
  function Word(b: seq<byte>): bv32
    requires |b| == 4
  {
    WordOf(Wide(b[0]), Wide(b[1]), Wide(b[2]), Wide(b[3]))
  }

  function Wide(b: byte): (w: bv32)
    ensures w < 256
  {
    SmallByte(b);
    b as bv32
  }

  function WordOf(a: bv32, b: bv32, c: bv32, d: bv32): bv32 {
    a | (b << 8) | (c << 16) | (d << 24)
  }

  lemma WordOfBytes(v: bv32)
    ensures WordOf(LowByte(v), LowByte(Rest(v)), LowByte(Rest(Rest(v))), LowByte(Rest(Rest(Rest(v))))) == v
  {
  }

  lemma BytesOfWord(a: bv32, b: bv32, c: bv32, d: bv32)
    requires a < 256 && b < 256 && c < 256 && d < 256
    ensures var v := WordOf(a, b, c, d);
      && LowByte(v) == a && LowByte(Rest(v)) == b && LowByte(Rest(Rest(v))) == c
      && LowByte(Rest(Rest(Rest(v)))) == d
  {
  }

  lemma SameByte(x: byte, y: bv32)
    requires y < 256
    ensures Wide(x) == y <==> x == Index(y)
  {
    if Wide(x) == y {
      Pow2Eight();
      SameWord(x, Index(y), 8);
    }
  }

  lemma FourIff(a: byte, b: byte, c: byte, d: byte, v: bv32)
    ensures WordOf(Wide(a), Wide(b), Wide(c), Wide(d)) == v <==>
      && a == Index(LowByte(v)) && b == Index(LowByte(Rest(v))) && c == Index(LowByte(Rest(Rest(v))))
      && d == Index(LowByte(Rest(Rest(Rest(v)))))
  {
    hide Wide, LowByte, Index, Rest, WordOf;
    WordOfBytes(v);
    BytesOfWord(Wide(a), Wide(b), Wide(c), Wide(d));
    SameByte(a, LowByte(v));
    SameByte(b, LowByte(Rest(v)));
    SameByte(c, LowByte(Rest(Rest(v))));
    SameByte(d, LowByte(Rest(Rest(Rest(v)))));
  }

  lemma WordIff(b: seq<byte>, v: bv32)
    requires |b| == 4
    ensures Word(b) == v <==> b == WordBytes(v)
  {
    hide Wide, LowByte, Index, Rest, WordOf;
    FourIff(b[0], b[1], b[2], b[3], v);
  }

  /** A length as the trailer holds it: modulo 2^32. */
  function LengthWord(n: nat): bv32 {
    (n % WORD) as bv32
  }

  /** The eight bytes behind the compressed data. */
  function Trailer(data: seq<byte>): (t: seq<byte>)
    ensures |t| == 8
  {
    WordBytes(Crc(data)) + WordBytes(LengthWord(|data|))
  }

  lemma TrailerIff(b: seq<byte>, data: seq<byte>)
    requires |b| == 8
    ensures b == Trailer(data) <==> Word(b[..4]) == Crc(data) && Word(b[4..]) == LengthWord(|data|)
  {
    hide Word, WordBytes, LengthWord;
    WordIff(b[..4], Crc(data));
    WordIff(b[4..], LengthWord(|data|));
    assert b == b[..4] + b[4..];
  }

  /** The input begins with blocks that stand for the data, and goes on at the next byte with the trailer. */
  ghost predicate Member(input: seq<byte>, blocks: seq<Block>, data: seq<byte>, end: nat) {
    && AllWritable(blocks, 0) && BlocksMean(blocks, data, 0)
    && BlocksBits(blocks, 0) <= StreamBits(input)
    && 8 * end - 8 < |BlocksBits(blocks, 0)| <= 8 * end
    && end + 8 <= |input| && input[end..end + 8] == Trailer(data)
  }

  /** The input has been used up to a byte position: what is left is what the decoder left, from the next byte on. */
  lemma UsedUpTo(input: seq<byte>, inptr: nat, rest: seq<bool>, bits: nat, end: nat)
    requires inptr <= |input| && BitsOf(input[inptr..]) == Align(rest)
    requires |rest| + bits == 8 * |input| && 8 * end - 8 < bits <= 8 * end
    ensures inptr == end
  {
  }

  /** How many bytes the decoder leaves, in whole bytes. */
  lemma UsedBytes(input: seq<byte>, inptr: nat, rest: seq<bool>)
    requires inptr <= |input| && BitsOf(input[inptr..]) == Align(rest)
    ensures |input| - inptr == |rest| / 8
  {
  }

  /** Eight bytes one by one, if they are there. */
  method ReadEight(inf: Inflater) returns (ok: bool, buf: seq<byte>)
    requires inf.inptr <= |inf.input|
    modifies inf`inptr
    ensures ok <==> old(inf.inptr) + 8 <= |inf.input|
    ensures inf.inptr <= |inf.input|
    ensures ok ==> inf.inptr == old(inf.inptr) + 8 && buf == inf.input[old(inf.inptr)..inf.inptr]
  {
    ghost var start := inf.inptr;
    buf := [];
    while |buf| < 8
      invariant |buf| <= 8 && inf.inptr == start + |buf| <= |inf.input| && buf == inf.input[start..inf.inptr]
    {
      if inf.inptr == |inf.input| {
        return false, buf;
      }
      buf := buf + [inf.input[inf.inptr]];
      inf.inptr := inf.inptr + 1;
    }
    ok := true;
  }

  /** Compare the checksum and the length of the output with those that follow. */
  method CheckTrailer(inf: Inflater) returns (v: Verdict)
    requires inf.Valid()
    modifies inf`inptr, inf.register`crc
    ensures inf.Valid()
    ensures v.Accepted? <==>
      old(inf.inptr) + 8 <= |inf.input| && inf.input[old(inf.inptr)..old(inf.inptr) + 8] == Trailer(inf.output)
    ensures v.Accepted? ==> inf.inptr == old(inf.inptr) + 8
  {
    hide Trailer, Crc, Word, LengthWord, BitsOf, Register, Feed;
    var ok, buf := ReadEight(inf);
    if !ok {
      return UnexpectedEnd;
    }
    TrailerIff(buf, inf.output);
    var crc := inf.register.Update([]);
    EmptyUpdate(inf.output);
    if Word(buf[..4]) != crc {
      return CrcError;
    }
    if Word(buf[4..]) != LengthWord(|inf.output|) {
      return LengthError;
    }
    v := Accepted;
  }

  /** unzip(): accepts what inflates and has the right trailer. */
  method UnzipMember(inf: Inflater, ghost blocks: seq<Block>, ghost data: seq<byte>, ghost end: nat)
    returns (v: Verdict)
    requires inf.Valid() && inf.inptr == 0 && inf.output == [] && forall i :: 0 <= i < WSIZE ==> inf.window[i] == 0
    modifies inf`inptr, inf`bb, inf`bk, inf`outcnt, inf`output, inf.window, inf.register`crc
    ensures inf.Valid()
    ensures v.Accepted? ==>
      && RefInflate(inf.input).Done? && RefInflate(inf.input).value == inf.output
      && inf.inptr >= 8 && |inf.input| - (inf.inptr - 8) == |RefInflate(inf.input).rest| / 8
      && inf.input[inf.inptr - 8..inf.inptr] == Trailer(inf.output)
    ensures Member(inf.input, blocks, data, end) ==> v.Accepted? && inf.output == data && inf.inptr == end + 8
  {
    hide Trailer, Crc, BitsOf, Align, RefInflate, Register, Member, BlocksBits;
    var r := inf.register.Reset();
    var o, rest := inf.Run();
    if Member(inf.input, blocks, data, end) {
      MemberInflates(inf.input, blocks, data, end);
    }
    if !o.Ok? {
      return InvalidFormat;
    }
    UsedBytes(inf.input, inf.inptr, rest);
    if Member(inf.input, blocks, data, end) {
      MemberEnd(inf.input, blocks, data, end);
      UsedUpTo(inf.input, inf.inptr, rest, |BlocksBits(blocks, 0)|, end);
    }
    v := CheckTrailer(inf);
  }

  lemma MemberEnd(input: seq<byte>, blocks: seq<Block>, data: seq<byte>, end: nat)
    requires Member(input, blocks, data, end)
    ensures AllWritable(blocks, 0) && 8 * end - 8 < |BlocksBits(blocks, 0)| <= 8 * end && end + 8 <= |input|
    ensures input[end..end + 8] == Trailer(data)
  {
    hide AllWritable, BlocksMean, BlocksBits, Trailer;
  }

  lemma EmptyUpdate(s: seq<byte>)
    ensures Feed(Register(s), BitsOf([])) == Register(s) && Complement(Register(s)) == Crc(s)
  {
    RegisterOfPieces(s, []);
    assert s + [] == s;
  }

  lemma MemberInflates(input: seq<byte>, blocks: seq<Block>, data: seq<byte>, end: nat)
    requires Member(input, blocks, data, end)
    ensures var r := RefInflate(input);
      r.Done? && r.value == data && |r.rest| + |BlocksBits(blocks, 0)| == 8 * |input| && |r.rest| >= 64
  {
    hide AllWritable, BlocksMean, BlocksBits, RefInflate, Trailer;
    InflateInverts(input, blocks, data);
  }
}

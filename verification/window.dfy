/**
 The circular output window of inflate (boot/zBoot/inflate.c, boot/zBoot/misc.c):
 WSIZE bytes written in place, flushed whenever they are full, and copied from.
 */
module Window {
  import opened Basics
  import opened Deflate

  const WSIZE: nat := 0x8000

  /**
   The window holds `out`, all output so far: `flushed` of it is written out already, the
   first `w` bytes are the rest, and the others are what was there WSIZE bytes earlier
   (zero before the output began: the window starts out as zeroed memory).
   */
  ghost predicate Holds(win: seq<byte>, w: nat, flushed: seq<byte>, out: seq<byte>) {
    && |win| == WSIZE && w <= WSIZE
    && out == flushed + win[..w]
    && forall i :: w <= i < WSIZE ==> win[i] == Old(flushed, i)
  }

  /** The byte at window index `i` one window before the current one. */
  function Old(flushed: seq<byte>, i: nat): byte
    requires i < WSIZE
  {
    if WSIZE <= |flushed| then flushed[|flushed| - WSIZE + i] else 0
  }

  /** The flushed output is a whole number of windows. */
  ghost predicate WholeWindows(flushed: seq<byte>) {
    flushed == [] || WSIZE <= |flushed|
  }

  /** Reading the window `dist` back from index `w`. */
  lemma ReadBack(win: seq<byte>, w: nat, flushed: seq<byte>, out: seq<byte>, dist: nat, d: nat)
    requires Holds(win, w, flushed, out) && w < WSIZE && WholeWindows(flushed)
    requires 1 <= dist <= WSIZE && d == (if dist <= w then w - dist else w + WSIZE - dist)
    ensures win[d] == Back(out, dist)
  {
  }

  lemma WriteByte(win: seq<byte>, w: nat, flushed: seq<byte>, out: seq<byte>, x: byte)
    requires Holds(win, w, flushed, out) && w < WSIZE
    ensures Holds(win[w := x], w + 1, flushed, out + [x])
  {
    assert win[w := x][..w + 1] == win[..w] + [x];
  }

  lemma Flush(win: seq<byte>, flushed: seq<byte>, out: seq<byte>)
    requires Holds(win, WSIZE, flushed, out)
    ensures Holds(win, 0, flushed + win, out) && WholeWindows(flushed + win)
  {
    assert win[..WSIZE] == win;
  }

  /** One byte of a copy, source and destination index moving together. */
  lemma CopyByte(win: seq<byte>, w: nat, flushed: seq<byte>, out: seq<byte>, dist: nat, d: nat)
    requires Holds(win, w, flushed, out) && w < WSIZE && WholeWindows(flushed)
    requires 1 <= dist <= WSIZE && d == (if dist <= w then w - dist else w + WSIZE - dist)
    ensures Holds(win[w := win[d]], w + 1, flushed, out + [Back(out, dist)])
  {
    ReadBack(win, w, flushed, out, dist, d);
    WriteByte(win, w, flushed, out, win[d]);
  }

  /** memcpy of misc.c on one buffer: bytes are copied in ascending order. */
  method Memcpy(win: array<byte>, w: nat, d: nat, n: nat)
    requires w + n <= win.Length && d + n <= win.Length
    requires d + n <= w || w < d
    modifies win
    ensures forall i {:trigger win[i]} :: 0 <= i < win.Length ==>
      win[i] == if w <= i < w + n then old(win[d + (i - w)]) else old(win[i])
  {
    for i := 0 to n
      invariant forall j :: 0 <= j < win.Length ==>
        win[j] == if w <= j < w + i then old(win[d + (j - w)]) else old(win[j])
    {
      win[w + i] := win[d + i];
    }
  }

  /** A block of bytes copied at once, source below or above the destination. */
  lemma {:induction false} CopyBlock(win: seq<byte>, win': seq<byte>, w: nat, flushed: seq<byte>, out: seq<byte>,
                                     dist: nat, d: nat, n: nat)
    requires Holds(win, w, flushed, out) && WholeWindows(flushed) && w + n <= WSIZE && d + n <= WSIZE && |win'| == WSIZE
    requires n > 0 ==> 1 <= dist <= WSIZE && d == (if dist <= w then w - dist else w + WSIZE - dist)
    requires d + n <= w || w < d
    requires forall i {:trigger win'[i]} :: 0 <= i < WSIZE ==>
      win'[i] == if w <= i < w + n then win[d + (i - w)] else win[i]
    requires dist >= 1
    ensures Holds(win', w + n, flushed, Copy(out, dist, n))
    decreases n
  {
    if n == 0 {
      assert win' == win;
    } else {
      var win1 := win[w := win[d]];
      CopyByte(win, w, flushed, out, dist, d);
      CopyBlock(win1, win', w + 1, flushed, out + [Back(out, dist)], dist, d + 1, n - 1);
    }
  }

  lemma {:induction false} CopyInTwo(out: seq<byte>, dist: nat, m: nat, n: nat)
    requires dist >= 1
    ensures Copy(out, dist, m + n) == Copy(Copy(out, dist, m), dist, n)
    decreases m
  {
    if m > 0 {
      CopyInTwo(out + [Back(out, dist)], dist, m - 1, n);
    }
  }

  lemma {:induction false} CopyLast(out: seq<byte>, dist: nat, m: nat)
    requires dist >= 1
    ensures Copy(out, dist, m + 1) == Copy(out, dist, m) + [Back(Copy(out, dist, m), dist)]
  {
    CopyInTwo(out, dist, m, 1);
    assert Copy(Copy(out, dist, m), dist, 1) == Copy(out, dist, m) + [Back(Copy(out, dist, m), dist)];
  }
}

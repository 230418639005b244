/**
 The first half of huft_build: count the lengths, find the shortest and longest,
 check the set against the Kraft inequality, and sort the symbols by length.
 */
module HuftSort {
  import opened Basics
  import opened Bits
  import opened Huffman

  const N_MAX: nat := 288

  /** c[l] is the number of symbols of length l. */
  ghost predicate Counts(lens: Lengths, c: seq<nat>) {
    |c| == BMAX + 1 && forall l :: 0 <= l <= BMAX ==> c[l] == Count(lens, l)
  }

  method CountLengths(lens: Lengths) returns (c: seq<nat>)
    ensures Counts(lens, c)
  {
    c := seq(BMAX + 1, _ => 0);
    for i := 0 to |lens|
      invariant |c| == BMAX + 1
      invariant forall l :: 0 <= l <= BMAX ==> c[l] == Count(lens[..i], l)
    {
      assert lens[..i + 1][..i] == lens[..i];
      c := c[lens[i] := c[lens[i]] + 1];
    }
    assert lens[..|lens|] == lens;
  }

  /** Number of used symbols shorter than `k`: where the symbols of length `k` start in v. */
  function Off(lens: seq<nat>, k: nat): nat {
    if k <= 1 then 0 else Off(lens, k - 1) + Count(lens, k - 1)
  }

  lemma {:induction false} OffMonotone(lens: seq<nat>, j: nat, k: nat)
    requires 1 <= j < k
    ensures Off(lens, j) + Count(lens, j) <= Off(lens, k)
  {
    if j < k - 1 {
      OffMonotone(lens, j, k - 1);
    }
  }

  lemma {:induction false} OffSnoc(lens: seq<nat>, l: nat, k: nat)
    ensures Off(lens + [l], k) == Off(lens, k) + if 1 <= l < k then 1 else 0
    decreases k
  {
    assert (lens + [l])[..|lens|] == lens;
    if k > 1 {
      OffSnoc(lens, l, k - 1);
    }
  }

  /** Used and unused symbols together are all symbols. */
  lemma {:induction false} OffTotal(lens: Lengths)
    ensures Off(lens, BMAX + 1) + Count(lens, 0) == |lens|
  {
    if lens == [] {
      OffEmpty(BMAX + 1);
    } else {
      var m := |lens| - 1;
      OffTotal(lens[..m]);
      OffSnoc(lens[..m], lens[m], BMAX + 1);
      assert lens == lens[..m] + [lens[m]];
    }
  }

  lemma {:induction false} OffEmpty(k: nat)
    ensures Off([], k) == 0
  {
    if k > 1 {
      OffEmpty(k - 1);
    }
  }

  // ------------------------------------------------------------------
  // The Kraft inequality

  lemma {:induction false} NextCodeBelowShortest(lens: seq<nat>, j: nat)
    requires j >= 1 && forall l :: 1 <= l < j ==> Count(lens, l) == 0
    ensures NextCode(lens, j) == 0 && Off(lens, j) == 0
  {
    if j > 1 {
      NextCodeBelowShortest(lens, j - 1);
    }
  }

  lemma {:induction false} EndAboveLongest(lens: seq<nat>, g: nat)
    requires 1 <= g <= BMAX && forall l :: g < l <= BMAX ==> Count(lens, l) == 0
    ensures End(lens, g) == End(lens, BMAX)
    decreases BMAX - g
  {
    if g < BMAX {
      BaseStep(lens, g);
      EndAboveLongest(lens, g + 1);
    }
  }

  /** `y` of 2^k patterns of `k` bits are left over; negative when there are more codes than patterns. */
  ghost predicate PatternsLeft(lens: seq<nat>, k: nat, y: int) {
    k >= 1 && y == Pow2(k) - NextCode(lens, k) - Count(lens, k)
  }

  lemma LeftOverPosition(lens: seq<nat>, k: nat, y: int)
    requires PatternsLeft(lens, k, y) && k <= BMAX
    ensures y >= 0 ==> End(lens, k) <= End(lens, k) + y * Pow2(BMAX - k) == Pow2(BMAX)
    ensures y < 0 ==> End(lens, k) > Pow2(BMAX)
  {
    Pow2Add(k, BMAX - k);
    ScaleLeftOver(NextCode(lens, k), Count(lens, k), y, Pow2(k), Pow2(BMAX - k));
  }

  lemma ScaleLeftOver(n: nat, c: nat, y: int, total: nat, d: nat)
    requires y == total - n - c && d > 0
    ensures y >= 0 ==> n * d + c * d <= n * d + c * d + y * d == total * d
    ensures y < 0 ==> n * d + c * d > total * d
  {
    MulDistributes(n, c, d);
    if y >= 0 {
      MulDistributes(n + c, y, d);
    } else {
      MulScale(total + 1, n + c, d);
      MulDistributes(total, 1, d);
    }
  }

  /** The number of patterns of `g` bits that no code uses, or None if there are too many codes. */
  method UnusedPatterns(lens: Lengths, c: seq<nat>, shortest: nat, g: nat) returns (left: Option<nat>)
    requires Counts(lens, c) && 1 <= shortest <= g <= BMAX
    requires forall l :: 1 <= l < shortest || g < l <= BMAX ==> c[l] == 0
    ensures left.None? <==> Oversubscribed(lens)
    ensures left.Some? ==> PatternsLeft(lens, g, left.value)
  {
    hide Oversubscribed, Off, PatternsLeft, Kraft;
    NextCodeBelowShortest(lens, shortest);
    var y: int := Pow2(shortest);
    var j := shortest;
    while j < g
      invariant shortest <= j <= g
      invariant y == Pow2(j) - NextCode(lens, j)
    {
      y := y - c[j];
      LeftIs(lens, j, y);
      if y < 0 {
        TooManyCodes(lens, j, y);
        return None;
      }
      j := j + 1;
      y := 2 * y;
    }
    y := y - c[g];
    LeftIs(lens, g, y);
    if y < 0 {
      TooManyCodes(lens, g, y);
      return None;
    }
    EnoughPatterns(lens, g, y);
    left := Some(y);
  }

  lemma LeftIs(lens: seq<nat>, k: nat, y: int)
    requires k >= 1 && y == Pow2(k) - NextCode(lens, k) - Count(lens, k)
    ensures PatternsLeft(lens, k, y)
  {
  }

  lemma EnoughPatterns(lens: Lengths, g: nat, y: nat)
    requires PatternsLeft(lens, g, y) && g <= BMAX
    requires forall l :: g < l <= BMAX ==> Count(lens, l) == 0
    ensures !Oversubscribed(lens)
  {
    KraftFromLeft(lens, g, y);
    hide Kraft, Pow2;
  }

  lemma TooManyCodes(lens: Lengths, k: nat, y: int)
    requires PatternsLeft(lens, k, y) && y < 0 && k <= BMAX
    ensures Oversubscribed(lens)
  {
    LeftOverPosition(lens, k, y);
    KraftIsEnd(lens);
    if k < BMAX {
      BaseMonotone(lens, k, BMAX);
    }
  }

  /** The Kraft sum falls short of 1 by the patterns left over at the longest length. */
  lemma KraftFromLeft(lens: Lengths, g: nat, y: nat)
    requires PatternsLeft(lens, g, y) && g <= BMAX
    requires forall l :: g < l <= BMAX ==> Count(lens, l) == 0
    ensures Kraft(lens) == End(lens, g)
    ensures Kraft(lens) <= Kraft(lens) + y * Pow2(BMAX - g) == Pow2(BMAX)
  {
    KraftIsEnd(lens);
    EndAboveLongest(lens, g);
    LeftOverPosition(lens, g, y);
  }

  // ------------------------------------------------------------------
  // Sorting

  /** v lists the used symbols by length, those of one length in symbol order. */
  /** If `q` lies among the symbols of length `k`, it is the place of the one its rank says. */
  ghost predicate SortedAt(lens: Lengths, v: seq<nat>, k: nat, q: nat) {
    1 <= k <= BMAX && Off(lens, k) <= q < Off(lens, k) + Count(lens, k) ==>
      q < |v| && v[q] < |lens| && lens[v[q]] == k && Rank(lens, v[q]) == q - Off(lens, k)
  }

  ghost predicate SortedByLength(lens: Lengths, v: seq<nat>) {
    && |v| == N_MAX && Off(lens, BMAX + 1) <= |v|
    && forall k: nat, q: nat :: SortedAt(lens, v, k, q)
  }

  ghost predicate Bucket(lens: Lengths, v: seq<nat>, i: nat, k: nat, top: nat) {
    && i <= |lens| && top == Off(lens, k) + Count(lens[..i], k) && top <= |v|
    && forall q :: Off(lens, k) <= q < top ==>
         v[q] < i && lens[v[q]] == k && Rank(lens, v[q]) == q - Off(lens, k)
  }

  lemma BucketStep(lens: Lengths, v: seq<nat>, i: nat, k: nat, top: nat, j: nat, at: nat)
    requires i < |lens| && lens[i] == j >= 1 && at < |v| && 1 <= k <= BMAX
    requires Bucket(lens, v, i, j, at) && Bucket(lens, v, i, k, top)
    requires |v| >= Off(lens, BMAX + 1)
    ensures Bucket(lens, v[at := i], i + 1, k, if k == j then at + 1 else top)
  {
    CountPrefix(lens, i, k);
    CountPrefix(lens, i, j);
    if k < j {
      OffMonotone(lens, k, j);
    } else if j < k {
      OffMonotone(lens, j, k);
    }
  }

  lemma BucketRoom(lens: Lengths, i: nat)
    requires i < |lens| <= N_MAX && lens[i] >= 1
    ensures Off(lens, lens[i]) + Count(lens[..i], lens[i]) < N_MAX
  {
    CountPrefix(lens, i, lens[i]);
    OffMonotone(lens, lens[i], BMAX + 1);
    OffTotal(lens);
  }

  lemma OffRoom(lens: Lengths, k: nat)
    requires |lens| <= N_MAX && 1 <= k <= BMAX + 1
    ensures Off(lens, k) <= N_MAX
  {
    OffTotal(lens);
    if k <= BMAX {
      OffMonotone(lens, k, BMAX + 1);
    }
  }

  method Offsets(lens: Lengths, c: seq<nat>) returns (x: seq<nat>)
    requires Counts(lens, c)
    ensures |x| == BMAX + 1 && forall k :: 1 <= k <= BMAX ==> x[k] == Off(lens, k)
  {
    x := seq(BMAX + 1, _ => 0);
    var j := 0;
    for k := 1 to BMAX
      invariant |x| == BMAX + 1 && j == Off(lens, k)
      invariant forall t :: 1 <= t <= k ==> x[t] == Off(lens, t)
    {
      j := j + c[k];
      x := x[k + 1 := j];
    }
  }

  ghost predicate Buckets(lens: Lengths, v: seq<nat>, x: seq<nat>, i: nat) {
    && |v| == N_MAX && |x| == BMAX + 1
    && forall k :: 1 <= k <= BMAX ==> Bucket(lens, v, i, k, x[k])
  }

  lemma BucketsStart(lens: Lengths, v: seq<nat>, x: seq<nat>)
    requires |v| == N_MAX && |x| == BMAX + 1 && |lens| <= N_MAX
    requires forall k :: 1 <= k <= BMAX ==> x[k] == Off(lens, k)
    ensures Buckets(lens, v, x, 0)
  {
    forall k | 1 <= k <= BMAX
      ensures Bucket(lens, v, 0, k, x[k])
    {
      assert lens[..0] == [];
      OffRoom(lens, k);
    }
  }

  lemma BucketsPlace(lens: Lengths, v: seq<nat>, x: seq<nat>, i: nat)
    requires Buckets(lens, v, x, i) && i < |lens| <= N_MAX && lens[i] > 0
    ensures var j := lens[i]; x[j] < |v| && Buckets(lens, v[x[j] := i], x[j := x[j] + 1], i + 1)
  {
    var j := lens[i];
    assert Bucket(lens, v, i, j, x[j]);
    BucketRoom(lens, i);
    OffTotal(lens);
    forall k | 1 <= k <= BMAX
      ensures Bucket(lens, v[x[j] := i], i + 1, k, if k == j then x[j] + 1 else x[k])
    {
      BucketStep(lens, v, i, k, x[k], j, x[j]);
    }
  }

  lemma BucketsSkip(lens: Lengths, v: seq<nat>, x: seq<nat>, i: nat)
    requires Buckets(lens, v, x, i) && i < |lens| && lens[i] == 0
    ensures Buckets(lens, v, x, i + 1)
  {
    forall k | 1 <= k <= BMAX
      ensures Bucket(lens, v, i + 1, k, x[k])
    {
      CountPrefix(lens, i, k);
    }
  }

  lemma BucketsEnd(lens: Lengths, v: seq<nat>, x: seq<nat>)
    requires Buckets(lens, v, x, |lens|) && |lens| <= N_MAX
    ensures SortedByLength(lens, v)
  {
    hide Rank, Off, Count, Bucket;
    OffTotal(lens);
    forall k: nat, q: nat
      ensures SortedAt(lens, v, k, q)
    {
      if 1 <= k <= BMAX {
        BucketEnd(lens, v, k, q, x[k]);
      }
    }
  }

  lemma BucketEnd(lens: Lengths, v: seq<nat>, k: nat, q: nat, top: nat)
    requires Bucket(lens, v, |lens|, k, top)
    ensures SortedAt(lens, v, k, q)
  {
    hide Rank, Off, Count;
    assert lens[..|lens|] == lens;
  }

  /** The stable counting sort of the used symbols; slots past them are left as they were. */
  method SortSymbols(lens: Lengths, c: seq<nat>) returns (v: seq<nat>)
    requires Counts(lens, c) && |lens| <= N_MAX
    ensures SortedByLength(lens, v)
  {
    var x := Offsets(lens, c);
    v := seq(N_MAX, _ => 0);
    BucketsStart(lens, v, x);
    for i := 0 to |lens|
      invariant Buckets(lens, v, x, i)
    {
      var j := lens[i];
      if j != 0 {
        BucketsPlace(lens, v, x, i);
        v, x := v[x[j] := i], x[j := x[j] + 1];
      } else {
        BucketsSkip(lens, v, x, i);
      }
    }
    BucketsEnd(lens, v, x);
  }
}

/**
 qsort (lib/libxc/qsort.c): a quicksort in place whose pivot is a block of equal elements
 that widens while the array is partitioned.
 */
module Qsort {
  import opened Bits

  /** A comparison function as the caller must supply it. */
  ghost predicate TotalPreorder<T(!new)>(cmp: (T, T) -> int) {
    && (forall x, y :: cmp(x, y) < 0 <==> cmp(y, x) > 0)
    && (forall x, y, z :: cmp(x, y) <= 0 && cmp(y, z) <= 0 ==> cmp(x, z) <= 0)
  }

  /** cmp(x, y) depends only on the class of y. */
  lemma SameClass<T(!new)>(cmp: (T, T) -> int, x: T, y: T, v: T)
    requires TotalPreorder(cmp) && cmp(y, v) == 0
    ensures cmp(x, y) < 0 <==> cmp(x, v) < 0
    ensures cmp(x, y) > 0 <==> cmp(x, v) > 0
    ensures cmp(y, x) > 0 <==> cmp(x, v) < 0
    ensures cmp(y, x) < 0 <==> cmp(x, v) > 0
  {
    assert cmp(v, y) == 0;
    assert cmp(x, y) <= 0 ==> cmp(x, v) <= 0;
    assert cmp(x, v) <= 0 ==> cmp(x, y) <= 0;
    assert cmp(y, x) <= 0 ==> cmp(v, x) <= 0;
    assert cmp(v, x) <= 0 ==> cmp(y, x) <= 0;
  }

  // ------------------------------------------------------------------
  // Rearranging a segment

  /** t is s with the elements from a up to l rearranged. */
  ghost predicate Rearranged<T>(s: seq<T>, t: seq<T>, a: nat, l: nat) {
    && a <= l <= |s| == |t|
    && s[..a] == t[..a] && s[l..] == t[l..]
    && multiset(s[a..l]) == multiset(t[a..l])
  }

  lemma RearrangedTrans<T>(s: seq<T>, t: seq<T>, u: seq<T>, a: nat, l: nat)
    requires Rearranged(s, t, a, l) && Rearranged(t, u, a, l)
    ensures Rearranged(s, u, a, l)
  {
  }

  /** Rearranging inside a smaller segment. */
  lemma RearrangedInside<T>(s: seq<T>, t: seq<T>, a: nat, b: nat, c: nat, l: nat)
    requires Rearranged(s, t, b, c) && a <= b && c <= l <= |s|
    ensures Rearranged(s, t, a, l)
  {
    assert s[a..l] == s[a..b] + s[b..c] + s[c..l] && t[a..l] == t[a..b] + t[b..c] + t[c..l];
    assert s[a..b] == s[..b][a..] == t[..b][a..] == t[a..b];
    assert s[c..l] == s[c..][..l - c] == t[c..][..l - c] == t[c..l];
    assert s[..a] == s[..b][..a] == t[..b][..a] == t[..a];
    assert s[l..] == s[c..][l - c..] == t[c..][l - c..] == t[l..];
  }

  /** Every element of the segment was in it before. */
  lemma RearrangedFrom<T>(s: seq<T>, t: seq<T>, a: nat, l: nat, k: nat) returns (k': nat)
    requires Rearranged(s, t, a, l) && a <= k < l
    ensures a <= k' < l && t[k] == s[k']
  {
    assert t[k] == t[a..l][k - a];
    assert t[k] in multiset(t[a..l]);
    assert t[k] in s[a..l];
    var i :| 0 <= i < l - a && s[a..l][i] == t[k];
    k' := a + i;
  }

  function Swapped<T>(s: seq<T>, i: nat, j: nat): (r: seq<T>)
    requires i < |s| && j < |s|
    ensures |r| == |s|
  {
    s[i := s[j]][j := s[i]]
  }

  /** i gets the element of k, k that of j, j that of i. */
  function Rotated<T>(s: seq<T>, i: nat, j: nat, k: nat): (r: seq<T>)
    requires i < |s| && j < |s| && k < |s|
    ensures |r| == |s|
  {
    s[i := s[k]][k := s[j]][j := s[i]]
  }

  lemma SwapRearranges<T>(s: seq<T>, a: nat, l: nat, i: nat, j: nat)
    requires a <= i < l <= |s| && a <= j < l
    ensures Rearranged(s, Swapped(s, i, j), a, l)
  {
    var t := s[i := s[j]][j := s[i]];
    assert t[a..l] == s[a..l][i - a := s[j]][j - a := s[i]];
    assert s[i] == s[a..l][i - a] && s[j] == s[a..l][j - a];
  }

  /** qsexc() */
  method Exchange<T>(arr: array<T>, i: nat, j: nat, ghost a: nat, ghost l: nat)
    requires a <= i < l <= arr.Length && a <= j < l
    modifies arr
    ensures arr[..] == Swapped(old(arr[..]), i, j) && Rearranged(old(arr[..]), arr[..], a, l)
  {
    SwapRearranges(arr[..], a, l, i, j);
    arr[i], arr[j] := arr[j], arr[i];
    assert arr[..] == old(arr[..])[i := old(arr[j])][j := old(arr[i])];
  }

  /** qstexc(); j and k may be the same. */
  method Exchange3<T>(arr: array<T>, i: nat, j: nat, k: nat, ghost a: nat, ghost l: nat)
    requires a <= i < l <= arr.Length && a <= j < l && a <= k < l && i != j && i != k
    modifies arr
    ensures arr[..] == Rotated(old(arr[..]), i, j, k) && Rearranged(old(arr[..]), arr[..], a, l)
  {
    hide Rearranged;
    ghost var s := arr[..];
    var c := arr[i];
    arr[i] := arr[k];
    arr[k] := arr[j];
    arr[j] := c;
    assert arr[..] == s[i := s[k]][k := s[j]][j := s[i]];
    RotationRearranges(s, a, l, i, j, k);
  }

  /** A rotation of three elements is two exchanges. */
  lemma RotationRearranges<T>(s: seq<T>, a: nat, l: nat, i: nat, j: nat, k: nat)
    requires a <= i < l <= |s| && a <= j < l && a <= k < l && i != j && i != k
    ensures Rearranged(s, Rotated(s, i, j, k), a, l)
  {
    hide Rearranged, Rotated, Swapped;
    SwapRearranges(s, a, l, i, k);
    var t := Swapped(s, i, k);
    SwapRearranges(t, a, l, j, k);
    RotationIsSwaps(s, i, j, k);
    RearrangedTrans(s, t, Rotated(s, i, j, k), a, l);
  }

  lemma RotationIsSwaps<T>(s: seq<T>, i: nat, j: nat, k: nat)
    requires i < |s| && j < |s| && k < |s| && i != j && i != k
    ensures Rotated(s, i, j, k) == Swapped(Swapped(s, i, k), j, k)
  {
    var r, t := Rotated(s, i, j, k), Swapped(s, i, k);
    var u := Swapped(t, j, k);
    forall x | 0 <= x < |s|
      ensures r[x] == u[x]
    {
    }
  }

  // ------------------------------------------------------------------
  // Partitioning

  /** Below the pivot up to i, equal to it from lp to hp, above it after j; the rest is not looked at yet. */
  ghost predicate Parted<T(!new)>(cmp: (T, T) -> int, v: T, s: seq<T>, a: nat, i: nat, lp: nat, hp: nat, j: nat,
                                  l: nat) {
    && a <= i <= lp <= hp <= j < l <= |s|
    && (forall k :: a <= k < i ==> cmp(s[k], v) < 0)
    && (forall k :: lp <= k <= hp ==> cmp(s[k], v) == 0)
    && (forall k :: j < k < l ==> cmp(s[k], v) > 0)
  }

  /** What a comparison with either end of the block says about the pivot class. */
  lemma AtBlock<T(!new)>(cmp: (T, T) -> int, v: T, s: seq<T>, a: nat, i: nat, lp: nat, hp: nat, j: nat, l: nat)
    requires TotalPreorder(cmp) && Parted(cmp, v, s, a, i, lp, hp, j, l)
    ensures (cmp(s[i], s[lp]) < 0 <==> cmp(s[i], v) < 0) && (cmp(s[i], s[lp]) > 0 <==> cmp(s[i], v) > 0)
    ensures (cmp(s[hp], s[j]) > 0 <==> cmp(s[j], v) < 0) && (cmp(s[hp], s[j]) < 0 <==> cmp(s[j], v) > 0)
  {
    SameClass(cmp, s[i], s[lp], v);
    SameClass(cmp, s[j], s[hp], v);
  }

  lemma LowStep<T(!new)>(cmp: (T, T) -> int, v: T, s: seq<T>, a: nat, i: nat, lp: nat, hp: nat, j: nat, l: nat)
    requires Parted(cmp, v, s, a, i, lp, hp, j, l) && i < lp
    ensures cmp(s[i], v) == 0 ==> Parted(cmp, v, Swapped(s, i, lp - 1), a, i, lp - 1, hp, j, l)
    ensures cmp(s[i], v) < 0 ==> Parted(cmp, v, s, a, i + 1, lp, hp, j, l)
  {
  }

  lemma HighStep<T(!new)>(cmp: (T, T) -> int, v: T, s: seq<T>, a: nat, i: nat, lp: nat, hp: nat, j: nat, l: nat)
    requires Parted(cmp, v, s, a, i, lp, hp, j, l) && j > hp
    ensures cmp(s[j], v) == 0 ==> Parted(cmp, v, Swapped(s, hp + 1, j), a, i, lp, hp + 1, j, l)
    ensures cmp(s[j], v) > 0 ==> Parted(cmp, v, s, a, i, lp, hp, j - 1, l)
  {
  }

  /** A small element above the block, with nothing left to look at below it: the block moves up. */
  lemma RotateUp<T(!new)>(cmp: (T, T) -> int, v: T, s: seq<T>, a: nat, lp: nat, hp: nat, j: nat, l: nat)
    requires Parted(cmp, v, s, a, lp, lp, hp, j, l) && j > hp && cmp(s[j], v) < 0
    ensures Parted(cmp, v, Rotated(s, lp, hp + 1, j), a, lp + 1, lp + 1, hp + 1, j, l)
  {
  }

  lemma SwapSides<T(!new)>(cmp: (T, T) -> int, v: T, s: seq<T>, a: nat, i: nat, lp: nat, hp: nat, j: nat, l: nat)
    requires Parted(cmp, v, s, a, i, lp, hp, j, l) && i < lp && j > hp && cmp(s[i], v) > 0 && cmp(s[j], v) < 0
    ensures Parted(cmp, v, Swapped(s, i, j), a, i + 1, lp, hp, j - 1, l)
  {
  }

  /** A large element below the block, with nothing left to look at above it: the block moves down. */
  lemma RotateDown<T(!new)>(cmp: (T, T) -> int, v: T, s: seq<T>, a: nat, i: nat, lp: nat, hp: nat, l: nat)
    requires Parted(cmp, v, s, a, i, lp, hp, hp, l) && i < lp && cmp(s[i], v) > 0
    ensures Parted(cmp, v, Rotated(s, hp, lp - 1, i), a, i, lp - 1, hp - 1, hp - 1, l)
  {
  }

  /** Everything the loop of qs1 keeps. */
  ghost predicate Loop<T(!new)>(cmp: (T, T) -> int, v: T, s0: seq<T>, s: seq<T>, a: nat, i: nat, lp: nat, hp: nat,
                                j: nat, l: nat) {
    a <= i <= lp <= hp <= j < l <= |s| && Parted(cmp, v, s, a, i, lp, hp, j, l) && Rearranged(s0, s, a, l)
  }

  lemma LoopBounds<T(!new)>(cmp: (T, T) -> int, v: T, s0: seq<T>, s: seq<T>, a: nat, i: nat, lp: nat, hp: nat, j: nat,
                            l: nat)
    requires TotalPreorder(cmp) && Loop(cmp, v, s0, s, a, i, lp, hp, j, l)
    ensures a <= i <= lp <= hp <= j < l <= |s|
    ensures (cmp(s[i], s[lp]) < 0 <==> cmp(s[i], v) < 0) && (cmp(s[i], s[lp]) > 0 <==> cmp(s[i], v) > 0)
    ensures (cmp(s[hp], s[j]) > 0 <==> cmp(s[j], v) < 0) && (cmp(s[hp], s[j]) < 0 <==> cmp(s[j], v) > 0)
  {
    AtBlock(cmp, v, s, a, i, lp, hp, j, l);
  }

  lemma LoopMoves<T(!new)>(cmp: (T, T) -> int, v: T, s0: seq<T>, s: seq<T>, a: nat, i: nat, lp: nat, hp: nat, j: nat,
                           l: nat)
    requires Loop(cmp, v, s0, s, a, i, lp, hp, j, l)
    ensures i < lp && cmp(s[i], v) < 0 ==> Loop(cmp, v, s0, s, a, i + 1, lp, hp, j, l)
    ensures j > hp && cmp(s[j], v) > 0 ==> Loop(cmp, v, s0, s, a, i, lp, hp, j - 1, l)
  {
  }

  /** An equal element joins the block at its low end. */
  method WidenDown<T(!new)>(arr: array<T>, a: nat, l: nat, i: nat, lp: nat, hp: nat, j: nat, ghost cmp: (T, T) -> int,
                            ghost v: T, ghost s0: seq<T>)
    requires Loop(cmp, v, s0, arr[..], a, i, lp, hp, j, l) && i < lp && cmp(arr[i], v) == 0
    modifies arr
    ensures Loop(cmp, v, s0, arr[..], a, i, lp - 1, hp, j, l)
  {
    hide Parted, Rearranged, Swapped, Rotated;
    ghost var s := arr[..];
    LowStep(cmp, v, s, a, i, lp, hp, j, l);
    Exchange(arr, i, lp - 1, a, l);
    RearrangedTrans(s0, s, arr[..], a, l);
  }

  /** An equal element joins the block at its high end. */
  method WidenUp<T(!new)>(arr: array<T>, a: nat, l: nat, i: nat, lp: nat, hp: nat, j: nat, ghost cmp: (T, T) -> int,
                          ghost v: T, ghost s0: seq<T>)
    requires Loop(cmp, v, s0, arr[..], a, i, lp, hp, j, l) && j > hp && cmp(arr[j], v) == 0
    modifies arr
    ensures Loop(cmp, v, s0, arr[..], a, i, lp, hp + 1, j, l) && (i < lp ==> arr[i] == old(arr[i]))
  {
    hide Parted, Rearranged;
    ghost var s := arr[..];
    HighStep(cmp, v, s, a, i, lp, hp, j, l);
    Exchange(arr, hp + 1, j, a, l);
    RearrangedTrans(s0, s, arr[..], a, l);
    assert i < lp ==> arr[..][i] == s[i];
    hide Swapped;
  }

  /** A smaller element above goes below: the block moves up by one. */
  method MoveUp<T(!new)>(arr: array<T>, a: nat, l: nat, lp: nat, hp: nat, j: nat, ghost cmp: (T, T) -> int, ghost v: T,
                         ghost s0: seq<T>)
    requires Loop(cmp, v, s0, arr[..], a, lp, lp, hp, j, l) && j > hp && cmp(arr[j], v) < 0
    modifies arr
    ensures Loop(cmp, v, s0, arr[..], a, lp + 1, lp + 1, hp + 1, j, l)
  {
    hide Parted, Rearranged, Swapped, Rotated;
    ghost var s := arr[..];
    RotateUp(cmp, v, s, a, lp, hp, j, l);
    Exchange3(arr, lp, hp + 1, j, a, l);
    RearrangedTrans(s0, s, arr[..], a, l);
  }

  /** A larger element below and a smaller one above the block change places. */
  method SwapEnds<T(!new)>(arr: array<T>, a: nat, l: nat, i: nat, lp: nat, hp: nat, j: nat, ghost cmp: (T, T) -> int,
                           ghost v: T, ghost s0: seq<T>)
    requires Loop(cmp, v, s0, arr[..], a, i, lp, hp, j, l) && i < lp && j > hp && cmp(arr[i], v) > 0
    requires cmp(arr[j], v) < 0
    modifies arr
    ensures Loop(cmp, v, s0, arr[..], a, i + 1, lp, hp, j - 1, l)
  {
    hide Parted, Rearranged, Swapped, Rotated;
    ghost var s := arr[..];
    SwapSides(cmp, v, s, a, i, lp, hp, j, l);
    Exchange(arr, i, j, a, l);
    RearrangedTrans(s0, s, arr[..], a, l);
  }

  /** A larger element below goes above: the block moves down by one. */
  method MoveDown<T(!new)>(arr: array<T>, a: nat, l: nat, i: nat, lp: nat, hp: nat, ghost cmp: (T, T) -> int,
                           ghost v: T, ghost s0: seq<T>)
    requires Loop(cmp, v, s0, arr[..], a, i, lp, hp, hp, l) && i < lp && cmp(arr[i], v) > 0
    modifies arr
    ensures Loop(cmp, v, s0, arr[..], a, i, lp - 1, hp - 1, hp - 1, l)
  {
    hide Parted, Rearranged, Swapped, Rotated;
    ghost var s := arr[..];
    RotateDown(cmp, v, s, a, i, lp, hp, l);
    Exchange3(arr, hp, lp - 1, i, a, l);
    RearrangedTrans(s0, s, arr[..], a, l);
  }

  /**
   From the label `loop` on: look at the elements above the block, until there are none or
   one was swapped with the one at i.
   */
  method LookHigh<T(!new)>(arr: array<T>, a: nat, l: nat, i0: nat, lp0: nat, hp0: nat, j0: nat, cmp: (T, T) -> int,
                           ghost v: T, ghost s0: seq<T>)
    returns (i: nat, lp: nat, hp: nat, j: nat, swapped: bool)
    requires TotalPreorder(cmp) && Loop(cmp, v, s0, arr[..], a, i0, lp0, hp0, j0, l) && i0 < arr.Length
    requires (i0 < lp0 ==> cmp(arr[i0], v) > 0)
    modifies arr
    ensures Loop(cmp, v, s0, arr[..], a, i, lp, hp, j, l) && (lp - i) + (j - hp) <= (lp0 - i0) + (j0 - hp0)
    ensures swapped ==> (lp - i) + (j - hp) < (lp0 - i0) + (j0 - hp0)
    ensures !swapped ==> j == hp && i < arr.Length && (i < lp ==> cmp(arr[i], v) > 0)
  {
    hide TotalPreorder, Loop;
    LoopBounds(cmp, v, s0, arr[..], a, i0, lp0, hp0, j0, l);
    i, lp, hp, j := i0, lp0, hp0, j0;
    while j > hp
      invariant a <= i <= lp <= hp <= j < l <= arr.Length
      invariant Loop(cmp, v, s0, arr[..], a, i, lp, hp, j, l) && (i < lp ==> cmp(arr[i], v) > 0)
      invariant (lp - i) + (j - hp) <= (lp0 - i0) + (j0 - hp0)
      decreases j - hp
    {
      LoopBounds(cmp, v, s0, arr[..], a, i, lp, hp, j, l);
      LoopMoves(cmp, v, s0, arr[..], a, i, lp, hp, j, l);
      var c := cmp(arr[hp], arr[j]);
      if c == 0 {
        WidenUp(arr, a, l, i, lp, hp, j, cmp, v, s0);
        hp := hp + 1;
      } else if c > 0 {
        if i == lp {
          MoveUp(arr, a, l, lp, hp, j, cmp, v, s0);
          hp := hp + 1;
          lp := lp + 1;
          i := lp;
        } else {
          SwapEnds(arr, a, l, i, lp, hp, j, cmp, v, s0);
          j := j - 1;
          i := i + 1;
          return i, lp, hp, j, true;
        }
      } else {
        j := j - 1;
      }
    }
    swapped := false;
  }

  /** One round of the loop of qs1; done when nothing is left to look at. */
  method Round<T(!new)>(arr: array<T>, a: nat, l: nat, i0: nat, lp0: nat, hp0: nat, j0: nat, cmp: (T, T) -> int,
                        ghost v: T, ghost s0: seq<T>)
    returns (i: nat, lp: nat, hp: nat, j: nat, done: bool)
    requires TotalPreorder(cmp) && Loop(cmp, v, s0, arr[..], a, i0, lp0, hp0, j0, l)
    modifies arr
    ensures Loop(cmp, v, s0, arr[..], a, i, lp, hp, j, l)
    ensures done ==> i == lp && j == hp
    ensures !done ==> (lp - i) + (j - hp) < (lp0 - i0) + (j0 - hp0)
  {
    hide Loop, TotalPreorder;
    LoopBounds(cmp, v, s0, arr[..], a, i0, lp0, hp0, j0, l);
    i, lp, hp, j, done := i0, lp0, hp0, j0, false;
    if i < lp {
      LoopMoves(cmp, v, s0, arr[..], a, i, lp, hp, j, l);
      var c := cmp(arr[i], arr[lp]);
      if c == 0 {
        WidenDown(arr, a, l, i, lp, hp, j, cmp, v, s0);
        lp := lp - 1;
        return;
      }
      if c < 0 {
        i := i + 1;
        return;
      }
    }
    var swapped;
    i, lp, hp, j, swapped := LookHigh(arr, a, l, i, lp, hp, j, cmp, v, s0);
    LoopBounds(cmp, v, s0, arr[..], a, i, lp, hp, j, l);
    if !swapped {
      if i == lp {
        done := true;
      } else {
        MoveDown(arr, a, l, i, lp, hp, cmp, v, s0);
        lp := lp - 1;
        hp := hp - 1;
        j := hp;
      }
    }
  }

  /**
   The loop of qs1: it ends with everything below lp less than, and everything above hp
   greater than the block between.
   */
  method Partition<T(!new)>(arr: array<T>, a: nat, l: nat, cmp: (T, T) -> int) returns (lp: nat, hp: nat, ghost v: T)
    requires TotalPreorder(cmp) && a + 1 < l <= arr.Length
    modifies arr
    ensures Parted(cmp, v, arr[..], a, lp, lp, hp, hp, l) && Rearranged(old(arr[..]), arr[..], a, l)
    ensures a <= lp <= hp < l
  {
    hide Loop, TotalPreorder, Parted, Rearranged;
    lp := a + (l - a) / 2;
    hp := lp;
    var i: nat, j: nat, done := a, l - 1, false;
    v := arr[lp];
    StartLoop(cmp, arr[..], a, lp, l);
    ghost var s0 := arr[..];
    LoopBounds(cmp, v, s0, arr[..], a, i, lp, hp, j, l);
    while !done
      invariant Loop(cmp, v, s0, arr[..], a, i, lp, hp, j, l) && a <= i <= lp <= hp <= j < l <= arr.Length
      invariant done ==> i == lp && j == hp
      decreases !done, (lp - i) + (j - hp)
    {
      i, lp, hp, j, done := Round(arr, a, l, i, lp, hp, j, cmp, v, s0);
      LoopBounds(cmp, v, s0, arr[..], a, i, lp, hp, j, l);
    }
    LoopDone(cmp, v, s0, arr[..], a, lp, hp, l);
  }

  lemma LoopDone<T(!new)>(cmp: (T, T) -> int, v: T, s0: seq<T>, s: seq<T>, a: nat, lp: nat, hp: nat, l: nat)
    requires Loop(cmp, v, s0, s, a, lp, lp, hp, hp, l)
    ensures Parted(cmp, v, s, a, lp, lp, hp, hp, l) && Rearranged(s0, s, a, l)
  {
  }

  lemma StartLoop<T(!new)>(cmp: (T, T) -> int, s: seq<T>, a: nat, mid: nat, l: nat)
    requires TotalPreorder(cmp) && a <= mid < l <= |s|
    ensures Loop(cmp, s[mid], s, s, a, a, mid, mid, l - 1, l)
  {
    Reflexive(cmp, s[mid]);
  }

  lemma Reflexive<T(!new)>(cmp: (T, T) -> int, v: T)
    requires TotalPreorder(cmp)
    ensures cmp(v, v) == 0
  {
  }

  // ------------------------------------------------------------------
  // Sorting

  ghost predicate Sorted<T>(cmp: (T, T) -> int, s: seq<T>, a: nat, l: nat) {
    l <= |s| && forall p, q :: a <= p < q < l ==> cmp(s[p], s[q]) <= 0
  }

  predicate Within(p: int, a: nat, l: nat) {
    a <= p < l
  }

  /** All pairs are in order but those with both elements from a up to b, or both from c up to d. */
  ghost predicate OrderedBut<T>(cmp: (T, T) -> int, s: seq<T>, a0: nat, l0: nat, a: nat, b: nat, c: nat, d: nat) {
    && a0 <= a <= b <= c <= d <= l0 <= |s|
    && forall p, q | a0 <= p < q < l0 && !(Within(p, a, b) && Within(q, a, b)) ::
         !(Within(p, c, d) && Within(q, c, d)) ==> cmp(s[p], s[q]) <= 0
  }

  /** This stays so however one of the two segments is rearranged. */
  lemma OrderStays<T>(cmp: (T, T) -> int, s: seq<T>, t: seq<T>, a0: nat, l0: nat, a: nat, b: nat, c: nat, d: nat,
                      x: nat, y: nat)
    requires OrderedBut(cmp, s, a0, l0, a, b, c, d) && Rearranged(s, t, x, y) && ((x, y) == (a, b) || (x, y) == (c, d))
    ensures OrderedBut(cmp, t, a0, l0, a, b, c, d)
  {
    forall p, q | a0 <= p < q < l0 && !(Within(p, a, b) && Within(q, a, b)) && !(Within(p, c, d) && Within(q, c, d))
      ensures cmp(t[p], t[q]) <= 0
    {
      var p' := Source(s, t, x, y, p);
      var q' := Source(s, t, x, y, q);
      assert cmp(s[p'], s[q']) <= 0;
    }
  }

  /** Where an element was before a segment was rearranged. */
  lemma Source<T>(s: seq<T>, t: seq<T>, a: nat, l: nat, k: nat) returns (k': nat)
    requires Rearranged(s, t, a, l) && k < |s|
    ensures k' < |s| && t[k] == s[k'] && (Within(k, a, l) <==> Within(k', a, l)) && (!Within(k, a, l) ==> k' == k)
  {
    if a <= k < l {
      k' := RearrangedFrom(s, t, a, l, k);
    } else {
      k' := k;
      if k < a {
        assert s[k] == s[..a][k] && t[k] == t[..a][k];
      } else {
        assert s[k] == s[l..][k - l] && t[k] == t[l..][k - l];
      }
    }
  }

  /** After partitioning, only pairs inside the two sides may be out of order. */
  lemma PartedOrder<T(!new)>(cmp: (T, T) -> int, v: T, s: seq<T>, a0: nat, a: nat, lp: nat, hp: nat, l: nat, l0: nat)
    requires TotalPreorder(cmp) && Parted(cmp, v, s, a, lp, lp, hp, hp, l) && OrderedBut(cmp, s, a0, l0, a, l, l0, l0)
    ensures OrderedBut(cmp, s, a0, l0, a, lp, hp + 1, l)
  {
    forall p, q | a0 <= p < q < l0
      && !(Within(p, a, lp) && Within(q, a, lp)) && !(Within(p, hp + 1, l) && Within(q, hp + 1, l))
      ensures cmp(s[p], s[q]) <= 0
    {
      if Within(p, a, l) && Within(q, a, l) {
        assert cmp(s[p], v) <= 0 && cmp(s[q], v) >= 0;
        assert cmp(v, s[q]) <= 0;
      }
    }
  }

  /** Once one side is sorted, only the other is left. */
  lemma OneSideLeft<T>(cmp: (T, T) -> int, s: seq<T>, a0: nat, l0: nat, a: nat, b: nat, c: nat, d: nat)
    requires OrderedBut(cmp, s, a0, l0, a, b, c, d)
    ensures Sorted(cmp, s, c, d) ==> OrderedBut(cmp, s, a0, l0, a, b, l0, l0)
    ensures Sorted(cmp, s, a, b) ==> OrderedBut(cmp, s, a0, l0, c, d, l0, l0)
  {
  }

  /** Nothing left to sort. */
  lemma AllSorted<T>(cmp: (T, T) -> int, s: seq<T>, a0: nat, l0: nat, a: nat, l: nat)
    requires OrderedBut(cmp, s, a0, l0, a, l, l0, l0) && l <= a + 1
    ensures Sorted(cmp, s, a0, l0)
  {
  }

  lemma NothingSorted<T>(cmp: (T, T) -> int, s: seq<T>, a: nat, l: nat)
    requires a <= l <= |s|
    ensures OrderedBut(cmp, s, a, l, a, l, l, l) && Rearranged(s, s, a, l)
  {
  }

  /** The smaller of two sides with something between them has less than half of all elements. */
  lemma DepthGrows(n: nat, smaller: nat, d: nat)
    requires 2 * smaller + 1 <= n && n >= 2 && (d == 0 || Pow2(d) <= smaller)
    ensures Pow2(d + 1) <= n
  {
    assert Pow2(d + 1) == 2 * Pow2(d);
    assert Pow2(0) == 1;
  }

  /** What one round of partitioning and sorting a side keeps. */
  ghost predicate Progress<T>(cmp: (T, T) -> int, s0: seq<T>, s: seq<T>, a0: nat, l0: nat, a: nat, l: nat) {
    a0 <= a <= l <= l0 <= |s| && OrderedBut(cmp, s, a0, l0, a, l, l0, l0) && Rearranged(s0, s, a0, l0)
  }

  /**
   qs1(): sorts in place. The recursion goes into the smaller side only, so its depth is at
   most the logarithm of the number of elements.
   */
  method Qs1<T(!new)>(arr: array<T>, a0: nat, l0: nat, cmp: (T, T) -> int) returns (ghost depth: nat)
    requires TotalPreorder(cmp) && a0 <= l0 <= arr.Length
    modifies arr
    ensures Sorted(cmp, arr[..], a0, l0) && Rearranged(old(arr[..]), arr[..], a0, l0)
    ensures depth == 0 || Pow2(depth) <= l0 - a0
    decreases l0 - a0
  {
    hide TotalPreorder, Rearranged, OrderedBut, Parted, Sorted, Pow2;
    ghost var s0 := arr[..];
    NothingSorted(cmp, s0, a0, l0);
    var a, l := a0, l0;
    depth := 0;
    while l - a > 1
      invariant Progress(cmp, s0, arr[..], a0, l0, a, l)
      invariant depth == 0 || Pow2(depth) <= l0 - a0
      decreases l - a
    {
      var lp, hp;
      ghost var v, d;
      ghost var s1 := arr[..];
      lp, hp, v := Partition(arr, a, l, cmp);
      ghost var s2 := arr[..];
      Split(cmp, v, s0, s1, s2, a0, l0, a, l, lp, hp);
      if lp - a >= l - hp {
        d := Qs1(arr, hp + 1, l, cmp);
        RightDone(cmp, s0, s2, arr[..], a0, l0, a, lp, hp, l);
        DepthGrows(l - a, l - hp - 1, d);
        l := lp;
      } else {
        d := Qs1(arr, a, lp, cmp);
        LeftDone(cmp, s0, s2, arr[..], a0, l0, a, lp, hp, l);
        DepthGrows(l - a, lp - a, d);
        a := hp + 1;
      }
      depth := if depth > d + 1 then depth else d + 1;
    }
    AllSorted(cmp, arr[..], a0, l0, a, l);
  }

  lemma Split<T(!new)>(cmp: (T, T) -> int, v: T, s0: seq<T>, s1: seq<T>, s2: seq<T>, a0: nat, l0: nat, a: nat, l: nat,
                       lp: nat, hp: nat)
    requires TotalPreorder(cmp) && Progress(cmp, s0, s1, a0, l0, a, l) && Rearranged(s1, s2, a, l)
    requires Parted(cmp, v, s2, a, lp, lp, hp, hp, l)
    ensures OrderedBut(cmp, s2, a0, l0, a, lp, hp + 1, l) && Rearranged(s0, s2, a0, l0)
  {
    hide Rearranged, OrderedBut, TotalPreorder;
    OrderStays(cmp, s1, s2, a0, l0, a, l, l0, l0, a, l);
    PartedOrder(cmp, v, s2, a0, a, lp, hp, l, l0);
    RearrangedInside(s1, s2, a0, a, l, l0);
    RearrangedTrans(s0, s1, s2, a0, l0);
  }

  lemma RightDone<T(!new)>(cmp: (T, T) -> int, s0: seq<T>, s2: seq<T>, s3: seq<T>, a0: nat, l0: nat, a: nat, lp: nat,
                           hp: nat, l: nat)
    requires OrderedBut(cmp, s2, a0, l0, a, lp, hp + 1, l) && Rearranged(s0, s2, a0, l0)
    requires Sorted(cmp, s3, hp + 1, l) && Rearranged(s2, s3, hp + 1, l)
    ensures Progress(cmp, s0, s3, a0, l0, a, lp)
  {
    OrderStays(cmp, s2, s3, a0, l0, a, lp, hp + 1, l, hp + 1, l);
    OneSideLeft(cmp, s3, a0, l0, a, lp, hp + 1, l);
    RearrangedInside(s2, s3, a0, hp + 1, l, l0);
    RearrangedTrans(s0, s2, s3, a0, l0);
  }

  lemma LeftDone<T(!new)>(cmp: (T, T) -> int, s0: seq<T>, s2: seq<T>, s3: seq<T>, a0: nat, l0: nat, a: nat, lp: nat,
                          hp: nat, l: nat)
    requires OrderedBut(cmp, s2, a0, l0, a, lp, hp + 1, l) && Rearranged(s0, s2, a0, l0)
    requires Sorted(cmp, s3, a, lp) && Rearranged(s2, s3, a, lp)
    ensures Progress(cmp, s0, s3, a0, l0, hp + 1, l)
  {
    OrderStays(cmp, s2, s3, a0, l0, a, lp, hp + 1, l, a, lp);
    OneSideLeft(cmp, s3, a0, l0, a, lp, hp + 1, l);
    RearrangedInside(s2, s3, a0, a, lp, l0);
    RearrangedTrans(s0, s2, s3, a0, l0);
  }

  /** qsort() */
  method Sort<T(!new)>(arr: array<T>, cmp: (T, T) -> int)
    requires TotalPreorder(cmp)
    modifies arr
    ensures forall p, q :: 0 <= p < q < arr.Length ==> cmp(arr[p], arr[q]) <= 0
    ensures multiset(arr[..]) == multiset(old(arr[..]))
  {
    ghost var depth := Qs1(arr, 0, arr.Length, cmp);
    assert old(arr[..])[0..arr.Length] == old(arr[..]) && arr[..][0..arr.Length] == arr[..];
    assert forall p :: 0 <= p < arr.Length ==> arr[..][p] == arr[p];
  }
}

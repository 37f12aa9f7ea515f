/** `n_choose_r`: the r-element subsets of [0, n-1], listed by stepping a bit mask that
    starts with r ones followed by n - r zeros through `std::prev_permutation` until it
    wraps around; each mask contributes the indices of its ones. */
module Combinations {
  import opened Wrappers

  function Pow2(n: nat): nat
  {
    if n == 0 then 1 else 2 * Pow2(n - 1)
  }

  /** A mask read as a binary number, first bit most significant: the order in which
      `std::prev_permutation` walks the masks. */
  function Val(a: seq<bool>): nat
  {
    if a == [] then 0 else (if a[0] then Pow2(|a| - 1) else 0) + Val(a[1..])
  }

  lemma {:induction false} ValBound(a: seq<bool>)
    ensures Val(a) < Pow2(|a|)
  {
    if a != [] {
      ValBound(a[1..]);
    }
  }

  /** Two masks of one length that agree up to `p`, where only the first has a one, are
      ordered by that bit. */
  lemma {:induction false} ValSmallerAt(a: seq<bool>, b: seq<bool>, p: nat)
    requires |a| == |b| && p < |a| && a[..p] == b[..p] && a[p] && !b[p]
    ensures Val(b) < Val(a)
  {
    if p == 0 {
      ValBound(b[1..]);
    } else {
      assert a[0] == a[..p][0] == b[..p][0] == b[0];
      assert a[1..][..p - 1] == a[..p][1..];
      assert b[1..][..p - 1] == b[..p][1..];
      ValSmallerAt(a[1..], b[1..], p - 1);
    }
  }

  /** Masks that agree up to `i` differ in value exactly as their remainders do. */
  lemma {:induction false} ValCommonPrefix(a: seq<bool>, b: seq<bool>, i: nat)
    requires |a| == |b| && i <= |a| && a[..i] == b[..i]
    ensures Val(a) - Val(b) == Val(a[i..]) - Val(b[i..])
  {
    if i > 0 {
      assert a[0] == a[..i][0] == b[..i][0] == b[0];
      assert a[1..][..i - 1] == a[..i][1..];
      assert b[1..][..i - 1] == b[..i][1..];
      ValCommonPrefix(a[1..], b[1..], i - 1);
      assert a[1..][i - 1..] == a[i..];
      assert b[1..][i - 1..] == b[i..];
    }
  }

  /** The first position where two different masks of one length differ. */
  lemma {:induction false} FirstDifference(a: seq<bool>, b: seq<bool>) returns (p: nat)
    requires |a| == |b| && a != b
    ensures p < |a| && a[..p] == b[..p] && a[p] != b[p]
  {
    if a[0] != b[0] {
      p := 0;
    } else {
      assert a == [a[0]] + a[1..] && b == [b[0]] + b[1..];
      var q := FirstDifference(a[1..], b[1..]);
      p := q + 1;
      assert a[..p] == [a[0]] + a[1..][..q];
      assert b[..p] == [b[0]] + b[1..][..q];
    }
  }

  /** Different masks of one length have different values. */
  lemma ValDiffers(a: seq<bool>, b: seq<bool>)
    requires |a| == |b| && a != b
    ensures Val(a) != Val(b)
  {
    var p := FirstDifference(a, b);
    if a[p] {
      ValSmallerAt(a, b, p);
    } else {
      ValSmallerAt(b, a, p);
    }
  }

  lemma {:induction false} OnesAndZeros(s: seq<bool>)
    ensures multiset(s)[true] + multiset(s)[false] == |s|
  {
    if s == [] {
      assert multiset(s) == multiset{};
    } else {
      OnesAndZeros(s[1..]);
      assert s == [s[0]] + s[1..];
      assert multiset(s) == multiset{s[0]} + multiset(s[1..]);
      if s[0] {
        assert multiset{s[0]}[true] == 1 && multiset{s[0]}[false] == 0;
      } else {
        assert multiset{s[0]}[true] == 0 && multiset{s[0]}[false] == 1;
      }
    }
  }

  lemma OnesSplit(s: seq<bool>, i: nat)
    requires i <= |s|
    ensures multiset(s)[true] == multiset(s[..i])[true] + multiset(s[i..])[true]
  {
    assert s == s[..i] + s[i..];
  }

  /** Masks of one length with as many ones are rearrangements of each other. */
  lemma SameOnes(a: seq<bool>, b: seq<bool>)
    requires |a| == |b| && multiset(a)[true] == multiset(b)[true]
    ensures multiset(a) == multiset(b)
  {
    OnesAndZeros(a);
    OnesAndZeros(b);
    forall x: bool
      ensures multiset(a)[x] == multiset(b)[x]
    {
    }
  }

  /** Every one comes before every zero. */
  predicate OnesFirst(s: seq<bool>)
  {
    forall p, q :: 0 <= p < q < |s| && s[q] ==> s[p]
  }

  /** Every zero comes before every one. */
  predicate ZerosFirst(s: seq<bool>)
  {
    forall p, q :: 0 <= p < q < |s| && s[p] ==> s[q]
  }

  lemma ZerosFirstReversed(s: seq<bool>)
    requires ZerosFirst(s)
    ensures OnesFirst(Reverse(s))
  {
    var r := Reverse(s);
    forall p, q | 0 <= p < q < |r| && r[q]
      ensures r[p]
    {
      assert s[|s| - 1 - q];
    }
  }

  /** Ones first is the largest arrangement of its ones. */
  lemma {:induction false} GreatestArrangement(s: seq<bool>, m: seq<bool>)
    requires OnesFirst(s) && |m| == |s| && multiset(m)[true] == multiset(s)[true]
    ensures Val(m) <= Val(s)
  {
    if s != [] {
      assert s == [s[0]] + s[1..];
      assert m == [m[0]] + m[1..];
      if m[0] == s[0] {
        GreatestArrangement(s[1..], m[1..]);
      } else if s[0] {
        ValBound(m[1..]);
      } else {
        assert false;
      }
    }
  }

  /** No one is followed by a zero after position `lo`. */
  predicate NoDescentAfter(a: seq<bool>, lo: nat)
  {
    forall k :: lo < k < |a| ==> !(a[k - 1] && !a[k])
  }

  /** After `lo`, a one is followed by ones only. */
  lemma {:induction false} OnesStay(a: seq<bool>, lo: nat, p: nat, q: nat)
    requires NoDescentAfter(a, lo) && lo <= p <= q < |a| && a[p]
    ensures a[q]
    decreases q - p
  {
    if p < q {
      OnesStay(a, lo, p, q - 1);
    }
  }

  /** A mask with as many ones as `a` that agrees with `a` before `p`, where `a` has a one
      that only ones follow, has a one at `p` as well. */
  lemma KeepsTrailingOne(a: seq<bool>, m: seq<bool>, lo: nat, p: nat)
    requires |m| == |a| && multiset(m)[true] == multiset(a)[true]
    requires NoDescentAfter(a, lo) && lo <= p < |a| && a[p] && m[..p] == a[..p]
    ensures m[p]
  {
    forall q | p <= q < |a|
      ensures a[q]
    {
      OnesStay(a, lo, p, q);
    }
    OnesSplit(a, p);
    OnesSplit(m, p);
    OnesAndZeros(a[p..]);
    OnesAndZeros(m[p..]);
    assert false !in a[p..];
    assert m[p..][0] == m[p];
  }

  /** After the swap of the step, the part from `i` on has its zeros first. */
  lemma StepTailZerosFirst(a: seq<bool>, i: nat, j: nat)
    requires 0 < i <= j < |a| && NoDescentAfter(a, i) && !a[j]
    requires forall q :: j < q < |a| ==> a[q]
    ensures ZerosFirst(a[i - 1 := false][j := true][i..])
  {
    var b := a[i - 1 := false][j := true];
    forall p, q | 0 <= p < q < |b| - i && b[i..][p]
      ensures b[i..][q]
    {
      if i + q < j {
        OnesStay(a, i, i + p, i + q);
      }
    }
  }

  function Reverse<T>(s: seq<T>): (r: seq<T>)
    ensures |r| == |s|
    ensures forall k :: 0 <= k < |s| ==> r[k] == s[|s| - 1 - k]
  {
    if s == [] then [] else [s[|s| - 1]] + Reverse(s[..|s| - 1])
  }

  lemma {:induction false} ReverseMultiset<T>(s: seq<T>)
    ensures multiset(Reverse(s)) == multiset(s)
  {
    if s != [] {
      ReverseMultiset(s[..|s| - 1]);
      assert s == s[..|s| - 1] + [s[|s| - 1]];
    }
  }

  /** The last position `i` with a one right before a zero at `i`, looking at or below `i0`;
      0 when there is none. */
  function DescentAtOrBelow(a: seq<bool>, i0: nat): (i: nat)
    requires i0 < |a|
    ensures i <= i0 && (i > 0 ==> a[i - 1] && !a[i])
    ensures forall k :: i < k <= i0 ==> !(a[k - 1] && !a[k])
  {
    if i0 == 0 then 0 else if a[i0 - 1] && !a[i0] then i0 else DescentAtOrBelow(a, i0 - 1)
  }

  /** The last zero at or after `i`, looking at or below `j`. */
  function LastZero(a: seq<bool>, i: nat, j: nat): (k: nat)
    requires i <= j < |a| && !a[i]
    ensures i <= k <= j && !a[k]
    ensures forall q :: k < q <= j ==> a[q]
    decreases j - i
  {
    if !a[j] then j else LastZero(a, i, j - 1)
  }

  /** `std::prev_permutation` on a mask: the lexicographically previous arrangement and
      `true`, or, from the smallest arrangement, the reversed (largest) one and `false`. */
  function PrevPermutation(a: seq<bool>): (r: (seq<bool>, bool))
    ensures |r.0| == |a| && multiset(r.0) == multiset(a)
    ensures r.1 ==> Val(r.0) < Val(a)
  {
    if a == [] then (a, false)
    else
      var i := DescentAtOrBelow(a, |a| - 1);
      if i == 0 then
        ReverseMultiset(a);
        (Reverse(a), false)
      else
        var j := LastZero(a, i, |a| - 1);
        var b := a[i - 1 := false][j := true];
        SwapMultiset(a, i - 1, j);
        assert b == b[..i] + b[i..];
        ReverseMultiset(b[i..]);
        var c := b[..i] + Reverse(b[i..]);
        assert c[..i - 1] == a[..i - 1];
        ValSmallerAt(a, c, i - 1);
        (c, true)
  }

  lemma SwapMultiset(a: seq<bool>, p: nat, q: nat)
    requires p < q < |a| && a[p] && !a[q]
    ensures multiset(a[p := false][q := true]) == multiset(a)
  {
    var a1 := a[p := false];
    assert multiset(a1) == multiset(a) - multiset{true} + multiset{false};
    assert a1[q] == false;
    assert multiset(a1[q := true]) == multiset(a1) - multiset{false} + multiset{true};
  }

  /** Where an earlier rearrangement `m` first leaves `a`, `a` has a one and `m` a zero,
      and that happens before the last one-zero step of `a`. */
  lemma EarlierLeavesBeforeDescent(a: seq<bool>, m: seq<bool>) returns (i: nat, p: nat)
    requires |m| == |a| && multiset(m) == multiset(a) && Val(m) < Val(a)
    ensures |a| > 0 && i == DescentAtOrBelow(a, |a| - 1)
    ensures p < i && a[..p] == m[..p] && a[p] && !m[p]
  {
    i := DescentAtOrBelow(a, |a| - 1);
    p := FirstDifference(a, m);
    if m[p] {
      ValSmallerAt(m, a, p);
      assert false;
    }
    if p >= i {
      KeepsTrailingOne(a, m, i, p);
      assert false;
    }
  }

  /** The step's result agrees with `a` before `i - 1`; from `i` on it holds the
      remaining ones first. */
  lemma StepShape(a: seq<bool>, i: nat, j: nat)
    requires 0 < i <= j < |a| && NoDescentAfter(a, i) && !a[j]
    requires forall q :: j < q < |a| ==> a[q]
    ensures var b := a[i - 1 := false][j := true];
            var c := b[..i] + Reverse(b[i..]);
            c[..i - 1] == a[..i - 1] && !c[i - 1] && OnesFirst(c[i..])
  {
    var b := a[i - 1 := false][j := true];
    var c := b[..i] + Reverse(b[i..]);
    StepTailZerosFirst(a, i, j);
    assert c[i..] == Reverse(b[i..]);
    ZerosFirstReversed(b[i..]);
  }

  /** The general step of `std::prev_permutation`, for a one-zero step ending at `i`:
      the result agrees with `a` before `i - 1`, has a zero there, and from `i` on holds
      its ones first. */
  lemma PrevPermutationStep(a: seq<bool>, i: nat) returns (c: seq<bool>)
    requires |a| > 0 && i == DescentAtOrBelow(a, |a| - 1) && i > 0
    ensures PrevPermutation(a) == (c, true)
    ensures |c| == |a| && multiset(c) == multiset(a)
    ensures c[..i - 1] == a[..i - 1] && !c[i - 1] && OnesFirst(c[i..])
  {
    var j := LastZero(a, i, |a| - 1);
    var b := a[i - 1 := false][j := true];
    c := b[..i] + Reverse(b[i..]);
    StepTailZerosFirst(a, i, j);
    assert c[i..] == Reverse(b[i..]);
    ZerosFirstReversed(b[i..]);
  }

  /** `std::prev_permutation` steps to the arrangement right before `a`: whenever some
      rearrangement `m` of `a` comes earlier, the step reports true and does not land
      before `m`. */
  lemma PrevPermutationIsPrevious(a: seq<bool>, m: seq<bool>)
    requires |m| == |a| && multiset(m) == multiset(a)
    ensures Val(m) < Val(a) ==> PrevPermutation(a).1 && Val(m) <= Val(PrevPermutation(a).0)
  {
    if Val(m) < Val(a) {
      var i, p := EarlierLeavesBeforeDescent(a, m);
      var c := PrevPermutationStep(a, i);
      if p < i - 1 {
        assert c[..p] == c[..i - 1][..p] && a[..p] == a[..i - 1][..p];
        assert c[p] == c[..i - 1][p] && a[p] == a[..i - 1][p];
        ValSmallerAt(c, m, p);
      } else {
        StepTail(a, m, c, i);
      }
    }
  }

  /** A rearrangement that agrees with the step's result up to `i` is no later than it. */
  lemma StepTail(a: seq<bool>, m: seq<bool>, c: seq<bool>, i: nat)
    requires |m| == |a| && multiset(m) == multiset(a) && |c| == |a| && multiset(c) == multiset(a)
    requires 0 < i <= |a| && m[..i - 1] == a[..i - 1] && !m[i - 1]
    requires c[..i - 1] == a[..i - 1] && !c[i - 1] && OnesFirst(c[i..])
    ensures Val(m) <= Val(c)
  {
    assert m[..i] == m[..i - 1] + [m[i - 1]] && c[..i] == c[..i - 1] + [c[i - 1]];
    OnesSplit(m, i);
    OnesSplit(c, i);
    GreatestArrangement(c[i..], m[i..]);
    ValCommonPrefix(m, c, i);
  }

  /** When it reports false, `std::prev_permutation` wraps around to the largest
      arrangement. */
  lemma PrevPermutationWraps(a: seq<bool>, m: seq<bool>)
    requires |m| == |a| && multiset(m) == multiset(a)
    ensures !PrevPermutation(a).1 ==> Val(m) <= Val(PrevPermutation(a).0)
  {
    if a != [] {
      var i := DescentAtOrBelow(a, |a| - 1);
      if i == 0 {
        forall p, q | 0 <= p < q < |a| && a[p]
          ensures a[q]
        {
          OnesStay(a, 0, p, q);
        }
        ZerosFirstReversed(a);
        ReverseMultiset(a);
        GreatestArrangement(Reverse(a), m);
      }
    }
  }

  /** `std::prev_permutation` reports false exactly on the least arrangement. */
  lemma PrevPermutationFalseIffLeast(a: seq<bool>)
    ensures !PrevPermutation(a).1 <==> forall m :: |m| == |a| && multiset(m) == multiset(a) ==> Val(a) <= Val(m)
  {
    forall m | |m| == |a| && multiset(m) == multiset(a)
      ensures !PrevPermutation(a).1 ==> Val(a) <= Val(m)
    {
      PrevPermutationIsPrevious(a, m);
    }
  }

  /** The indices of the ones of a mask, in increasing order. */
  function Indices(a: seq<bool>): (c: seq<int>)
    ensures forall k :: k in c <==> 0 <= k < |a| && a[k]
    ensures forall j, k :: 0 <= j < k < |c| ==> c[j] < c[k]
    ensures |c| == multiset(a)[true]
  {
    if a == [] then []
    else
      var n := |a| - 1;
      var prev := Indices(a[..n]);
      IndicesSnoc(a, prev);
      prev + (if a[n] then [n] else [])
  }

  /** The step of `Indices`: the indices of all but the last element, then the last
      index when it is a one. */
  lemma IndicesSnoc(a: seq<bool>, prev: seq<int>)
    requires a != []
    requires forall k :: k in prev <==> 0 <= k < |a| - 1 && a[k]
    requires forall j, k :: 0 <= j < k < |prev| ==> prev[j] < prev[k]
    requires |prev| == multiset(a[..|a| - 1])[true]
    ensures var c := prev + (if a[|a| - 1] then [|a| - 1] else []);
            (forall k :: k in c <==> 0 <= k < |a| && a[k])
            && (forall j, k :: 0 <= j < k < |c| ==> c[j] < c[k])
            && |c| == multiset(a)[true]
  {
    var n := |a| - 1;
    assert a == a[..n] + [a[n]];
    assert multiset(a) == multiset(a[..n]) + multiset{a[n]};
    forall k | 0 <= k < |prev|
      ensures prev[k] < n
    {
      assert prev[k] in prev;
    }
  }

  /** Masks of one length with the same indices are the same mask. */
  lemma IndicesInjective(a: seq<bool>, b: seq<bool>)
    requires |a| == |b| && Indices(a) == Indices(b)
    ensures a == b
  {
    forall k | 0 <= k < |a|
      ensures a[k] == b[k]
    {
      assert a[k] <==> k in Indices(a);
    }
  }

  /** An increasing choice of `r` numbers from [0, n-1]. */
  predicate IsCombination(c: seq<int>, n: int, r: int)
  {
    |c| == r
    && (forall k :: 0 <= k < |c| ==> 0 <= c[k] < n)
    && (forall j, k :: 0 <= j < k < |c| ==> c[j] < c[k])
  }

  /** The first mask: `r` ones, then zeros up to length `n`. */
  function FirstMask(n: nat, r: nat): (a: seq<bool>)
    requires r <= n
    ensures |a| == n && multiset(a)[true] == r
    ensures forall k :: 0 <= k < n ==> a[k] == (k < r)
  {
    if n == 0 then []
    else
      var prev := if r == n then FirstMask(n - 1, r - 1) else FirstMask(n - 1, r);
      prev + [r == n]
  }

  /** The indices of a mask of length `n` with `r` ones are a combination. */
  lemma IndicesAreCombination(a: seq<bool>, n: int, r: int)
    requires |a| == n && multiset(a)[true] == r
    ensures IsCombination(Indices(a), n, r)
  {
    var c := Indices(a);
    forall k | 0 <= k < |c|
      ensures 0 <= c[k] < n
    {
      assert c[k] in c;
    }
  }

  /** The inner loop: the indices of the ones of the mask. */
  method MaskIndices(bitmask: seq<bool>) returns (comb: seq<int>)
    ensures comb == Indices(bitmask)
  {
    comb := [];
    var i := 0;
    while i < |bitmask|
      invariant 0 <= i <= |bitmask|
      invariant comb == Indices(bitmask[..i])
    {
      assert bitmask[..i + 1][..i] == bitmask[..i];
      if bitmask[i] {
        comb := comb + [i];
      }
      i := i + 1;
    }
    assert bitmask[..|bitmask|] == bitmask;
  }

  /** `combs` lists the indices of `masks`, each a combination, none twice. */
  ghost predicate Listed(combs: seq<seq<int>>, masks: seq<seq<bool>>, n: int, r: int)
  {
    |masks| == |combs|
    && (forall k :: 0 <= k < |combs| ==> |masks[k]| == n && combs[k] == Indices(masks[k]) && IsCombination(combs[k], n, r))
    && (forall j, k :: 0 <= j < k < |combs| ==> combs[j] != combs[k])
  }

  /** Every listed mask comes after `b` in the walk. */
  ghost predicate Above(masks: seq<seq<bool>>, b: seq<bool>)
  {
    forall k :: 0 <= k < |masks| ==> Val(masks[k]) > Val(b)
  }

  lemma ListedSnoc(combs: seq<seq<int>>, masks: seq<seq<bool>>, n: int, r: int, b: seq<bool>)
    requires Listed(combs, masks, n, r) && Above(masks, b) && |b| == n && multiset(b)[true] == r
    ensures Listed(combs + [Indices(b)], masks + [b], n, r)
  {
    IndicesAreCombination(b, n, r);
    forall k | 0 <= k < |combs|
      ensures combs[k] != Indices(b)
    {
      if combs[k] == Indices(b) {
        IndicesInjective(masks[k], b);
      }
    }
    var combs' := combs + [Indices(b)];
    var masks' := masks + [b];
    forall k | 0 <= k < |combs'|
      ensures |masks'[k]| == n && combs'[k] == Indices(masks'[k]) && IsCombination(combs'[k], n, r)
    {
      if k < |combs| {
        assert combs'[k] == combs[k] && masks'[k] == masks[k];
      }
    }
    forall j, k | 0 <= j < k < |combs'|
      ensures combs'[j] != combs'[k]
    {
      if k < |combs| {
        assert combs'[j] == combs[j] && combs'[k] == combs[k];
      } else {
        assert combs'[j] == combs[j];
      }
    }
  }

  lemma AboveStep(masks: seq<seq<bool>>, b: seq<bool>, next: seq<bool>)
    requires Above(masks, b) && Val(next) < Val(b)
    ensures Above(masks + [b], next)
  {
    forall k | 0 <= k < |masks| + 1
      ensures Val((masks + [b])[k]) > Val(next)
    {
      if k < |masks| {
        assert (masks + [b])[k] == masks[k];
      }
    }
  }

  /** A mask of length `n` with `r` ones. */
  predicate Arrangement(m: seq<bool>, n: int, r: int)
  {
    |m| == n && multiset(m)[true] == r
  }

  /** Every arrangement that the walk meets before reaching value `lo` has its indices
      listed. */
  ghost predicate CoveredAbove(combs: seq<seq<int>>, n: int, r: int, lo: int)
  {
    forall m :: Arrangement(m, n, r) && Val(m) > lo ==> Indices(m) in combs
  }

  /** Listing the current mask before stepping keeps every arrangement met so far covered;
      once the step wraps around, every arrangement is. */
  lemma CoveredStep(combs: seq<seq<int>>, b: seq<bool>, n: int, r: int)
    requires Arrangement(b, n, r) && CoveredAbove(combs, n, r, Val(b))
    ensures var next := PrevPermutation(b);
            CoveredAbove(combs + [Indices(b)], n, r, if next.1 then Val(next.0) else -1)
  {
    var next := PrevPermutation(b);
    forall m | Arrangement(m, n, r) && Val(m) > (if next.1 then Val(next.0) else -1)
      ensures Indices(m) in combs + [Indices(b)]
    {
      SameOnes(m, b);
      PrevPermutationIsPrevious(b, m);
      if m != b {
        ValDiffers(m, b);
      }
    }
  }

  /** Two strictly increasing lists with the same members are equal. */
  lemma {:induction false} IncreasingSameMembers(x: seq<int>, y: seq<int>)
    requires forall j, k :: 0 <= j < k < |x| ==> x[j] < x[k]
    requires forall j, k :: 0 <= j < k < |y| ==> y[j] < y[k]
    requires forall v :: v in x <==> v in y
    ensures x == y
  {
    if x != [] {
      assert x[0] in x && x[0] in y;
    }
    if y != [] {
      assert y[0] in y && y[0] in x;
    }
    if x != [] {
      assert y[0] in x && x[0] in y;
      assert x[0] == y[0];
      forall v
        ensures v in x[1..] <==> v in y[1..]
      {
        assert v in x[1..] <==> v in x && v != x[0];
        assert v in y[1..] <==> v in y && v != y[0];
      }
      IncreasingSameMembers(x[1..], y[1..]);
      assert x == [x[0]] + x[1..] && y == [y[0]] + y[1..];
    }
  }

  /** Every combination is the index list of a mask. */
  lemma MaskOf(c: seq<int>, n: nat, r: int) returns (m: seq<bool>)
    requires IsCombination(c, n, r)
    ensures Arrangement(m, n, r) && Indices(m) == c
  {
    m := seq(n, k => k in c);
    forall v
      ensures v in Indices(m) <==> v in c
    {
      if v in c {
        var k :| 0 <= k < |c| && c[k] == v;
      }
    }
    IncreasingSameMembers(Indices(m), c);
  }

  /** `n_choose_r(n, r)`: empty when `n < r`; `None` when `r` is negative otherwise (the
      mask of `r` characters cannot be built); else every increasing `r`-subset of
      [0, n-1], each exactly once. */
  method NChooseR(n: int, r: int) returns (res: Option<seq<seq<int>>>)
    ensures n < r ==> res == Some([])
    ensures r <= n && r < 0 ==> res == None
    ensures 0 <= r <= n ==> res.Some? && |res.value| >= 1
    ensures res.Some? ==> forall k :: 0 <= k < |res.value| ==> IsCombination(res.value[k], n, r)
    ensures res.Some? ==> forall j, k :: 0 <= j < k < |res.value| ==> res.value[j] != res.value[k]
    ensures 0 <= r <= n ==> forall c :: IsCombination(c, n, r) ==> c in res.value
  {
    if n < r {
      return Some([]);
    }
    if r < 0 {
      return None;
    }
    var bitmask := FirstMask(n, r);
    var combs: seq<seq<int>> := [];
    ghost var masks: seq<seq<bool>> := [];
    var more := true;
    forall m | Arrangement(m, n, r)
      ensures Val(m) <= Val(bitmask)
    {
      GreatestArrangement(bitmask, m);
    }
    while more
      invariant |bitmask| == n && multiset(bitmask)[true] == r
      invariant Listed(combs, masks, n, r)
      invariant more ==> Above(masks, bitmask)
      invariant !more ==> |combs| >= 1
      invariant CoveredAbove(combs, n, r, if more then Val(bitmask) else -1)
      decreases if more then Val(bitmask) + 1 else 0
    {
      var comb := MaskIndices(bitmask);
      ListedSnoc(combs, masks, n, r, bitmask);
      CoveredStep(combs, bitmask, n, r);
      var next := PrevPermutation(bitmask);
      if next.1 {
        AboveStep(masks, bitmask, next.0);
      }
      combs := combs + [comb];
      masks := masks + [bitmask];
      bitmask, more := next.0, next.1;
    }
    forall c | IsCombination(c, n, r)
      ensures c in combs
    {
      var m := MaskOf(c, n, r);
    }
    res := Some(combs);
  }
}

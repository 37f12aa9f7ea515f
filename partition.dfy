/** `make_partition`: split a target count over a number of children. With one child, or a
    target of 1, the partition is the target alone; with as many children as the target, it
    is all ones; otherwise `n - 1` different cuts are drawn in [1, target - 1], sorted, and
    the partition is the gaps between 0, the cuts and the target. A draw that repeats an
    earlier cut is drawn again. The random generator is a stream of rolls; when the stream
    runs out before all cuts are drawn the outcome is `None`. */
module Partition {
  import opened Wrappers
  import opened Utils

  /** One draw of `random_uint(target - 1, 1)`. */
  function DrawCut(target: int, roll: nat): (v: int)
    requires 2 <= target < 0x8000_0000
    ensures 1 <= v <= target - 1
  {
    RandomUint((target - 1) as u32, 1, roll) as int
  }

  /** The cut loop: draws until `count` different cuts are collected; a draw already among the
      cuts is discarded. */
  function DrawCuts(target: int, count: nat, cuts: seq<int>, rolls: seq<nat>): (r: Option<seq<int>>)
    requires 2 <= target < 0x8000_0000
    ensures r.Some? && |cuts| <= count ==> |r.value| == count
    ensures r.Some? && |cuts| >= count ==> r.value == cuts
    decreases |rolls|
  {
    if |cuts| >= count then Some(cuts)
    else if rolls == [] then None
    else
      var v := DrawCut(target, rolls[0]);
      if v in cuts then DrawCuts(target, count, cuts, rolls[1..])
      else DrawCuts(target, count, cuts + [v], rolls[1..])
  }

  /** No value twice. */
  predicate Distinct(s: seq<int>)
  {
    forall i, j :: 0 <= i < j < |s| ==> s[i] != s[j]
  }

  /** Every value in [lo, hi]. */
  predicate Within(s: seq<int>, lo: int, hi: int)
  {
    forall i :: 0 <= i < |s| ==> lo <= s[i] <= hi
  }

  /** The collected cuts are different from each other and lie in [1, target - 1]. */
  lemma {:induction false} DrawCutsDistinct(target: int, count: nat, cuts: seq<int>, rolls: seq<nat>)
    requires 2 <= target < 0x8000_0000
    requires Distinct(cuts) && Within(cuts, 1, target - 1)
    ensures var r := DrawCuts(target, count, cuts, rolls);
            r.Some? ==> Distinct(r.value) && Within(r.value, 1, target - 1)
    decreases |rolls|
  {
    if |cuts| < count && rolls != [] {
      var v := DrawCut(target, rolls[0]);
      if v in cuts {
        DrawCutsDistinct(target, count, cuts, rolls[1..]);
      } else {
        DrawCutsDistinct(target, count, cuts + [v], rolls[1..]);
      }
    }
  }

  predicate Sorted(s: seq<int>)
  {
    forall i, j :: 0 <= i < j < |s| ==> s[i] <= s[j]
  }

  function Insert(x: int, s: seq<int>): (r: seq<int>)
    requires Sorted(s)
    ensures Sorted(r) && multiset(r) == multiset(s) + multiset{x}
  {
    if s == [] then [x]
    else if x <= s[0] then [x] + s
    else
      var rest := Insert(x, s[1..]);
      assert s == [s[0]] + s[1..];
      InsertStep(x, s, rest);
      [s[0]] + rest
  }

  lemma InsertStep(x: int, s: seq<int>, rest: seq<int>)
    requires Sorted(s) && s != [] && s[0] < x
    requires Sorted(rest) && multiset(rest) == multiset(s[1..]) + multiset{x}
    ensures Sorted([s[0]] + rest)
  {
    forall k | 0 <= k < |rest|
      ensures s[0] <= rest[k]
    {
      assert rest[k] in multiset(rest);
      if rest[k] != x {
        assert rest[k] in multiset(s[1..]);
        var j :| 0 <= j < |s[1..]| && s[1..][j] == rest[k];
        assert s[j + 1] == rest[k];
      }
    }
  }

  /** `std::sort` on the cuts. */
  function SortAsc(s: seq<int>): (r: seq<int>)
    ensures Sorted(r) && multiset(r) == multiset(s)
  {
    if s == [] then []
    else
      assert s == s[..|s| - 1] + [s[|s| - 1]];
      Insert(s[|s| - 1], SortAsc(s[..|s| - 1]))
  }

  /** The gaps between 0, the sorted cuts and the target. */
  function Gaps(cuts: seq<int>, target: int): (g: seq<int>)
    ensures |g| == |cuts| + 1
  {
    if cuts == [] then [target]
    else Gaps(cuts[..|cuts| - 1], cuts[|cuts| - 1]) + [target - cuts[|cuts| - 1]]
  }

  /** The gaps always add up to the target. */
  lemma {:induction false} GapsSum(cuts: seq<int>, target: int)
    ensures Sum(Gaps(cuts, target)) == target
  {
    if cuts != [] {
      GapsSum(cuts[..|cuts| - 1], cuts[|cuts| - 1]);
    }
  }

  /** Between 0 and the target, the gaps of increasing cuts are all positive. */
  lemma {:induction false} GapsPositive(cuts: seq<int>, target: int)
    requires forall i, j :: 0 <= i < j < |cuts| ==> cuts[i] < cuts[j]
    requires (cuts == [] || 0 < cuts[0]) && (cuts == [] || cuts[|cuts| - 1] < target) && 0 < target
    ensures forall k :: 0 <= k < |Gaps(cuts, target)| ==> Gaps(cuts, target)[k] > 0
  {
    if cuts != [] {
      GapsPositive(cuts[..|cuts| - 1], cuts[|cuts| - 1]);
    }
  }

  /** A sorted sequence without repeats is strictly increasing. */
  lemma SortedDistinctIncreasing(s: seq<int>)
    requires Sorted(s) && Distinct(s)
    ensures forall i, j :: 0 <= i < j < |s| ==> s[i] < s[j]
  {
  }

  /** Sorting keeps the values, so it keeps them different and in range. */
  lemma SortKeeps(s: seq<int>, lo: int, hi: int)
    requires Distinct(s) && Within(s, lo, hi)
    ensures Distinct(SortAsc(s)) && Within(SortAsc(s), lo, hi)
  {
    var r := SortAsc(s);
    forall i | 0 <= i < |r|
      ensures lo <= r[i] <= hi
    {
      assert r[i] in multiset(r);
      assert r[i] in multiset(s);
    }
    forall i, j | 0 <= i < j < |r|
      ensures r[i] != r[j]
    {
      TwiceIfEqual(r, i, j);
      MultiplicityOfDistinct(s, r[i]);
    }
  }

  /** Two equal elements count twice. */
  lemma TwiceIfEqual(r: seq<int>, i: nat, j: nat)
    requires i < j < |r|
    ensures r[i] == r[j] ==> multiset(r)[r[i]] >= 2
  {
    assert r == r[..j] + r[j..];
    assert r[..j][i] == r[i] && r[j..][0] == r[j];
    assert r[i] in multiset(r[..j]) && r[j] in multiset(r[j..]);
  }

  lemma {:induction false} MultiplicityOfDistinct(s: seq<int>, x: int)
    requires Distinct(s)
    ensures multiset(s)[x] <= 1
  {
    if s != [] {
      var n := |s| - 1;
      assert s == s[..n] + [s[n]];
      MultiplicityOfDistinct(s[..n], x);
      if s[n] == x {
        assert x !in s[..n];
        assert multiset(s[..n])[x] == 0;
      }
    }
  }

  /** The partition `make_partition(target, n_children)` computes, or `None` when the rolls
      run out while drawing cuts. */
  function Partition(target: int, nChildren: int, rolls: seq<nat>): Option<seq<int>>
    requires 1 <= nChildren && (nChildren == 1 || 1 <= target) && target < 0x8000_0000
  {
    if nChildren == 1 || target == 1 then Some([target])
    else if target == nChildren then Some(seq(nChildren, _ => 1))
    else
      var cuts := DrawCuts(target, nChildren - 1, [], rolls);
      if cuts.None? then None else Some(Gaps(SortAsc(cuts.value), target))
  }

  /** One child, or a target of 1, gives the target alone; with one child this holds for
      any target, 0 and negative ones included, since no cut is drawn. */
  lemma PartitionSingle(target: int, nChildren: int, rolls: seq<nat>)
    requires 1 <= nChildren && target < 0x8000_0000
    requires nChildren == 1 || target == 1
    ensures Partition(target, nChildren, rolls) == Some([target])
  {
  }

  /** As many children as the target gives all ones. */
  lemma PartitionAllOnes(n: int, rolls: seq<nat>)
    requires 1 <= n < 0x8000_0000
    ensures var p := Partition(n, n, rolls);
            p.Some? && |p.value| == n && forall k :: 0 <= k < n ==> p.value[k] == 1
  {
  }

  /** Whenever the cuts are all drawn (and unless the target is 1 with several children),
      the partition has one positive part per child and the parts add up to the target. */
  lemma PartitionSplitsTarget(target: int, nChildren: int, rolls: seq<nat>)
    requires 1 <= target < 0x8000_0000 && 1 <= nChildren
    requires !(target == 1 && nChildren > 1)
    requires Partition(target, nChildren, rolls).Some?
    ensures var p := Partition(target, nChildren, rolls).value;
            |p| == nChildren && Sum(p) == target && forall k :: 0 <= k < |p| ==> p[k] > 0
  {
    if nChildren == 1 {
      assert Sum([target]) == Sum([]) + target;
    } else if target == nChildren {
      AllOnesSum(nChildren);
    } else {
      var cuts := DrawCuts(target, nChildren - 1, [], rolls).value;
      DrawCutsDistinct(target, nChildren - 1, [], rolls);
      CutGapsSplitTarget(target, nChildren, cuts);
    }
  }

  lemma CutGapsSplitTarget(target: int, nChildren: int, cuts: seq<int>)
    requires 2 <= target < 0x8000_0000 && 2 <= nChildren
    requires Distinct(cuts) && Within(cuts, 1, target - 1) && |cuts| == nChildren - 1
    ensures var p := Gaps(SortAsc(cuts), target);
            |p| == nChildren && Sum(p) == target && forall k :: 0 <= k < |p| ==> p[k] > 0
  {
    assert |SortAsc(cuts)| == |multiset(SortAsc(cuts))| == |multiset(cuts)| == |cuts|;
    SortedCutsIncrease(cuts, target);
    IncreasingGapsSplit(SortAsc(cuts), target);
  }

  lemma SortedCutsIncrease(cuts: seq<int>, target: int)
    requires Distinct(cuts) && Within(cuts, 1, target - 1)
    ensures var s := SortAsc(cuts);
            Within(s, 1, target - 1) && forall i, j :: 0 <= i < j < |s| ==> s[i] < s[j]
  {
    SortKeeps(cuts, 1, target - 1);
    SortedDistinctIncreasing(SortAsc(cuts));
  }

  lemma IncreasingGapsSplit(s: seq<int>, target: int)
    requires 2 <= target && Within(s, 1, target - 1) && forall i, j :: 0 <= i < j < |s| ==> s[i] < s[j]
    ensures Sum(Gaps(s, target)) == target && forall k :: 0 <= k < |Gaps(s, target)| ==> Gaps(s, target)[k] > 0
  {
    GapsSum(s, target);
    if s != [] {
      assert 0 < s[0] && s[|s| - 1] < target;
    }
    GapsPositive(s, target);
  }

  lemma {:induction false} AllOnesSum(n: nat)
    ensures Sum(seq(n, _ => 1)) == n
  {
    if n > 0 {
      assert seq(n, _ => 1)[..n - 1] == seq(n - 1, _ => 1);
      AllOnesSum(n - 1);
    }
  }

  /** With fewer than `n - 1` values to cut at (a target below the number of children), the
      cuts are never all drawn, whatever the rolls: the source loops for ever. */
  lemma NeverFinishesBelowChildren(target: int, nChildren: int, rolls: seq<nat>)
    requires 2 <= target < 0x8000_0000 && target < nChildren
    ensures Partition(target, nChildren, rolls).None?
  {
    NoRoomForCuts(target, nChildren - 1, [], rolls);
  }

  lemma {:induction false} NoRoomForCuts(target: int, count: nat, cuts: seq<int>, rolls: seq<nat>)
    requires 2 <= target < 0x8000_0000 && target - 1 < count
    requires Distinct(cuts) && Within(cuts, 1, target - 1)
    ensures DrawCuts(target, count, cuts, rolls).None?
    decreases |rolls|
  {
    DistinctWithinBound(cuts, target - 1);
    if rolls != [] {
      var v := DrawCut(target, rolls[0]);
      if v in cuts {
        NoRoomForCuts(target, count, cuts, rolls[1..]);
      } else {
        NoRoomForCuts(target, count, cuts + [v], rolls[1..]);
      }
    }
  }

  /** Pigeonhole: values all different and in [1, m] are at most m. */
  lemma DistinctWithinBound(s: seq<int>, m: nat)
    requires Distinct(s) && Within(s, 1, m)
    ensures |s| <= m
  {
    var values := set x | x in s;
    DistinctCard(s);
    assert values <= Range(m);
    assert Range(m) == values + (Range(m) - values);
  }

  lemma {:induction false} DistinctCard(s: seq<int>)
    requires Distinct(s)
    ensures |set x | x in s| == |s|
  {
    if s != [] {
      var n := |s| - 1;
      DistinctCard(s[..n]);
      assert (set x | x in s) == (set x | x in s[..n]) + {s[n]};
      assert s[n] !in s[..n];
    }
  }

  /** The numbers 1 to m. */
  function Range(m: nat): (r: set<int>)
    ensures |r| == m && forall x :: x in r <==> 1 <= x <= m
  {
    if m == 0 then {} else Range(m - 1) + {m}
  }

  /** With a target above the number of children, some rolls finish: the ones drawing the
      cuts 1, 2, ..., n - 1. */
  lemma FinishesAboveChildren(target: int, nChildren: int) returns (rolls: seq<nat>)
    requires 2 <= nChildren < target < 0x8000_0000
    ensures Partition(target, nChildren, rolls).Some?
  {
    rolls := seq(nChildren - 1, i requires 0 <= i => i);
    var cuts: seq<int> := [];
    var k := 0;
    while k < nChildren - 1
      invariant 0 <= k <= nChildren - 1
      invariant |cuts| == k && forall i :: 0 <= i < k ==> cuts[i] == i + 1
      invariant DrawCuts(target, nChildren - 1, [], rolls) == DrawCuts(target, nChildren - 1, cuts, rolls[k..])
    {
      ModOfSmaller(k, target - 1);
      assert DrawCut(target, rolls[k]) == k + 1;
      assert k + 1 !in cuts;
      assert rolls[k..][1..] == rolls[k + 1..];
      cuts := cuts + [k + 1];
      k := k + 1;
    }
  }

  /** The nested draw loops of `make_partition`, reading the rolls in order. */
  method DrawCutsLoop(target: int, nChildren: int, rolls: seq<nat>) returns (cuts: Option<seq<int>>)
    requires 2 <= target < 0x8000_0000 && 1 <= nChildren
    ensures cuts == DrawCuts(target, nChildren - 1, [], rolls)
  {
    var cs: seq<int> := [];
    var next := 0;
    var i := 0;
    while i < nChildren - 1
      invariant 0 <= i <= nChildren - 1 && |cs| == i && 0 <= next <= |rolls|
      invariant DrawCuts(target, nChildren - 1, [], rolls) == DrawCuts(target, nChildren - 1, cs, rolls[next..])
    {
      if next == |rolls| {
        return None;
      }
      var val := DrawCut(target, rolls[next]);
      assert rolls[next..][1..] == rolls[next + 1..];
      next := next + 1;
      while val in cs
        invariant 0 <= next <= |rolls|
        invariant val in cs ==> DrawCuts(target, nChildren - 1, [], rolls) == DrawCuts(target, nChildren - 1, cs, rolls[next..])
        invariant val !in cs ==> DrawCuts(target, nChildren - 1, [], rolls) == DrawCuts(target, nChildren - 1, cs + [val], rolls[next..])
        decreases |rolls| - next
      {
        if next == |rolls| {
          return None;
        }
        val := DrawCut(target, rolls[next]);
        assert rolls[next..][1..] == rolls[next + 1..];
        next := next + 1;
      }
      cs := cs + [val];
      i := i + 1;
    }
    cuts := Some(cs);
  }
}

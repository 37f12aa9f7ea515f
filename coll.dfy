/** Collection helpers of the fuzzer: filtering a collection, bounds-checked access with a
    default element, and handing out the next or a random element that is not yet used,
    marking it used. Elements are shared objects carrying a `used` flag. */
module Coll {
  import opened Wrappers
  import opened Utils

  /** A resource or resource definition as far as the collection helpers see it. */
  class Item {
    var used: bool

    /** The default-constructed element: not used. */
    constructor ()
      ensures !used
    {
      used := false;
    }
  }

  /** The used flags of a collection, position by position. */
  function Flags(coll: seq<Item>): (flags: seq<bool>)
    reads coll
    ensures |flags| == |coll|
    ensures forall k :: 0 <= k < |coll| ==> flags[k] == coll[k].used
  {
    if coll == [] then [] else Flags(coll[..|coll| - 1]) + [coll[|coll| - 1].used]
  }

  // filter

  /** The elements satisfying `pred`, in their original order. */
  function Filter<T>(coll: seq<T>, pred: T -> bool): (r: seq<T>)
    ensures |r| <= |coll|
  {
    if coll == [] then [] else (if pred(coll[0]) then [coll[0]] else []) + Filter(coll[1..], pred)
  }

  /** An element is kept exactly when it is in the collection and satisfies the predicate. */
  lemma {:induction false} FilterMembers<T>(coll: seq<T>, pred: T -> bool)
    ensures forall x :: x in Filter(coll, pred) <==> x in coll && pred(x)
  {
    if coll != [] {
      FilterMembers(coll[1..], pred);
      assert coll == [coll[0]] + coll[1..];
    }
  }

  /** Filtering keeps order: filtering two pieces one after the other is filtering the whole. */
  lemma {:induction false} FilterAppend<T>(a: seq<T>, b: seq<T>, pred: T -> bool)
    ensures Filter(a + b, pred) == Filter(a, pred) + Filter(b, pred)
  {
    if a != [] {
      FilterAppend(a[1..], b, pred);
      assert (a + b)[1..] == a[1..] + b;
    } else {
      assert a + b == b;
    }
  }

  /** A collection whose every element satisfies the predicate comes back whole, and one with
      none comes back empty. */
  lemma {:induction false} FilterAllOrNone<T>(coll: seq<T>, pred: T -> bool)
    ensures (forall k :: 0 <= k < |coll| ==> pred(coll[k])) ==> Filter(coll, pred) == coll
    ensures (forall k :: 0 <= k < |coll| ==> !pred(coll[k])) ==> Filter(coll, pred) == []
  {
    if coll != [] {
      FilterAllOrNone(coll[1..], pred);
      assert forall k :: 1 <= k < |coll| ==> coll[1..][k - 1] == coll[k];
      assert coll == [coll[0]] + coll[1..];
    }
  }

  // elem_at

  /** `collection[index]` when the index is in range, else a fresh default element. */
  method ElemAt(coll: seq<Item>, index: nat) returns (e: Item)
    ensures index < |coll| ==> e == coll[index]
    ensures index >= |coll| ==> fresh(e) && !e.used
  {
    if index < |coll| {
      e := coll[index];
    } else {
      e := new Item();
    }
  }

  // get_next_from_coll

  /** The position of the first unused element, or the length when every element is used. */
  function FirstUnused(flags: seq<bool>): (i: nat)
    ensures i <= |flags|
    ensures i < |flags| ==> !flags[i]
    ensures forall k :: 0 <= k < i ==> flags[k]
  {
    if flags == [] || !flags[0] then 0 else 1 + FirstUnused(flags[1..])
  }

  /** Marks and returns the first unused element; with none left it returns a fresh default
      element and leaves the collection alone. No other element changes. */
  method GetNextFromColl(coll: seq<Item>) returns (e: Item)
    modifies coll
    ensures var i := FirstUnused(old(Flags(coll)));
            (i < |coll| ==> e == coll[i] && e.used)
            && (i == |coll| ==> fresh(e) && !e.used)
    ensures forall x :: x in coll ==> x.used == (old(x.used) || x == e)
  {
    ghost var flags := Flags(coll);
    var k := 0;
    while k < |coll|
      invariant 0 <= k <= |coll|
      invariant forall j :: 0 <= j < k ==> flags[j]
      invariant forall x :: x in coll ==> x.used == old(x.used)
    {
      if !coll[k].used {
        assert FirstUnused(flags) == k;
        coll[k].used := true;
        e := coll[k];
        return;
      }
      k := k + 1;
    }
    e := new Item();
  }

  // get_random_from_coll

  /** `total - 1` for the `unsigned int` size `total`: wraps to the largest value when the
      collection is empty. */
  function LastIndex(size: nat): (m: u32)
    ensures 0 < size <= 0x1_0000_0000 ==> m as int == size - 1
    ensures size == 0 ==> m == 0xFFFF_FFFF
  {
    ((size % 0x1_0000_0000 + 0xFFFF_FFFF) % 0x1_0000_0000) as u32
  }

  /** The position one draw asks `elem_at` for. */
  function Draw(size: nat, roll: nat): nat
  {
    RandomUint(LastIndex(size), 0, roll) as nat
  }

  /** A draw ends the search when it lands outside the collection (a fresh default element)
      or on an unused element. */
  predicate Lands(flags: seq<bool>, idx: nat)
  {
    idx >= |flags| || !flags[idx]
  }

  /** The first draw of the stream that ends the search, if any. */
  function FirstLanding(flags: seq<bool>, rolls: seq<nat>): (r: Option<nat>)
    ensures r.Some? ==> r.value < |rolls| && Lands(flags, Draw(|flags|, rolls[r.value]))
    ensures r.Some? ==> forall k :: 0 <= k < r.value ==> !Lands(flags, Draw(|flags|, rolls[k]))
    ensures r.None? ==> forall k :: 0 <= k < |rolls| ==> !Lands(flags, Draw(|flags|, rolls[k]))
  {
    if rolls == [] then None
    else if Lands(flags, Draw(|flags|, rolls[0])) then Some(0)
    else
      var rest := FirstLanding(flags, rolls[1..]);
      if rest.None? then None else Some(rest.value + 1)
  }

  /** Draws positions from `rolls` until one is unused (or out of range), marks that element
      used and returns it. The source draws for ever; here the search gives `None` once the
      stream is spent. */
  method GetRandomFromColl(coll: seq<Item>, rolls: seq<nat>) returns (elem: Option<Item>)
    modifies coll
    ensures var f := FirstLanding(old(Flags(coll)), rolls);
            (f.None? <==> elem.None?)
            && (f.Some? ==>
                  var idx := Draw(|coll|, rolls[f.value]);
                  elem.Some? && elem.value.used
                  && (idx < |coll| ==> elem.value == coll[idx])
                  && (idx >= |coll| ==> fresh(elem.value)))
    ensures forall x :: x in coll ==> x.used == (old(x.used) || (elem.Some? && x == elem.value))
  {
    ghost var flags := Flags(coll);
    var k := 0;
    while k < |rolls|
      invariant 0 <= k <= |rolls|
      invariant forall j :: 0 <= j < k ==> !Lands(flags, Draw(|coll|, rolls[j]))
      invariant forall x :: x in coll ==> x.used == old(x.used)
    {
      var e := ElemAt(coll, Draw(|coll|, rolls[k]));
      if !e.used {
        assert Lands(flags, Draw(|coll|, rolls[k]));
        assert FirstLanding(flags, rolls) == Some(k);
        e.used := true;
        return Some(e);
      }
      k := k + 1;
    }
    return None;
  }

  /** In a non-empty collection whose every element is used, no draw ever ends the search:
      the source loops for ever. */
  lemma AllUsedNeverLands(flags: seq<bool>, rolls: seq<nat>)
    requires 0 < |flags| <= 0x1_0000_0000
    requires forall k :: 0 <= k < |flags| ==> flags[k]
    ensures FirstLanding(flags, rolls).None?
  {
    forall k | 0 <= k < |rolls|
      ensures !Lands(flags, Draw(|flags|, rolls[k]))
    {
      var idx := Draw(|flags|, rolls[k]);
      assert idx < |flags|;
    }
  }

  /** An empty collection ends the search on the first draw, with a fresh default element. */
  lemma EmptyLandsAtOnce(rolls: seq<nat>)
    requires |rolls| >= 1
    ensures FirstLanding([], rolls) == Some(0)
  {
  }

  /** Every unused element can be the one drawn: some roll picks it first. */
  lemma UnusedCanBeDrawn(flags: seq<bool>, j: nat) returns (roll: nat)
    requires 1 < |flags| <= 0x1_0000_0000 && j < |flags| && !flags[j]
    ensures FirstLanding(flags, [roll]) == Some(0) && Draw(|flags|, roll) == j
  {
    roll := RandomUintCovers(LastIndex(|flags|), 0, j as u32);
  }
}

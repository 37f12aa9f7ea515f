/** How many times a term of a grammar branch is repeated: once, a uniform draw between two
    bounds, or a count looked up for another rule kind plus an offset. The random generator
    and the lookup are parameters. */
module TermConstraint {
  import opened Utils
  import opened Kinds

  /** C++ `int`. */
  newtype i32 = x: int | -0x8000_0000 <= x < 0x8000_0000

  datatype ConstraintKind = Unconstrained | RandomMax | DynamicMax

  datatype TermConstraint = TermConstraint(kind: ConstraintKind, randMin: u32, randMax: u32, dependency: Kind, offset: i32)

  /** `Term_constraint()`: no constraint. The source leaves the other fields uninitialised;
      here they are zero. */
  function NoConstraint(): (c: TermConstraint)
    ensures c.kind == Unconstrained
  {
    TermConstraint(Unconstrained, 0, 0, Eof, 0)
  }

  /** `Term_constraint(dependency, offset)`: a count taken from another rule kind; the draw
      bounds are zeroed. */
  function Dynamic(dependency: Kind, offset: i32): (c: TermConstraint)
    ensures c.kind == DynamicMax && c.randMin == 0 && c.randMax == 0
    ensures c.dependency == dependency && c.offset == offset
  {
    TermConstraint(DynamicMax, 0, 0, dependency, offset)
  }

  /** `Term_constraint(kind, rand_min, rand_max)`. */
  function WithBounds(kind: ConstraintKind, randMin: u32, randMax: u32): (c: TermConstraint)
    ensures c.kind == kind && c.randMin == randMin && c.randMax == randMax
  {
    TermConstraint(kind, randMin, randMax, Eof, 0)
  }

  /** The `int` an `unsigned int` converts to: its value modulo 2^32, read in two's complement. */
  function ToI32(v: int): (r: int)
    ensures -0x8000_0000 <= r < 0x8000_0000
    ensures (r - v) % 0x1_0000_0000 == 0
  {
    var m := v % 0x1_0000_0000;
    if m >= 0x8000_0000 then m - 0x1_0000_0000 else m
  }

  /** `resolve(lookup)` when the draw produced `roll`. The dynamic count is `lookup(dependency)
      + offset` in `unsigned int` arithmetic, converted to `int` and clamped below at 0. */
  function Resolve(c: TermConstraint, lookup: Kind -> u32, roll: nat): (r: u32)
    ensures c.kind == Unconstrained ==> r == 1
    ensures c.kind == RandomMax && c.randMin >= c.randMax ==> r == c.randMin
    ensures c.kind == RandomMax && c.randMin < c.randMax ==> c.randMin <= r <= c.randMax
    ensures c.kind == DynamicMax ==>
              var v := lookup(c.dependency) as int + c.offset as int;
              (-0x8000_0000 <= v < 0x8000_0000 ==> r as int == if v < 0 then 0 else v)
  {
    match c.kind
    case Unconstrained => 1
    case RandomMax => RandomUint(c.randMax, c.randMin, roll)
    case DynamicMax =>
      var sum := (lookup(c.dependency) as int + c.offset as int % 0x1_0000_0000) % 0x1_0000_0000;
      var val := ToI32(sum);
      if val < 0 then 0 else val as u32
  }

  /** A constraint with equal bounds always resolves to that bound, whatever the draw. */
  lemma FixedBoundsResolveToBound(n: u32, lookup: Kind -> u32, roll: nat)
    ensures Resolve(WithBounds(RandomMax, n, n), lookup, roll) == n
  {
  }

  /** Every value between the bounds of a draw is the result of some draw. */
  lemma EveryBoundedCountOccurs(randMin: u32, randMax: u32, v: u32, lookup: Kind -> u32) returns (roll: nat)
    requires randMin < randMax && randMin <= v <= randMax
    ensures Resolve(WithBounds(RandomMax, randMin, randMax), lookup, roll) == v
  {
    roll := RandomUintCovers(randMax, randMin, v);
  }

  /** Outside the `int` range the dynamic count wraps before the clamp: a looked-up count of
      2^31 with offset 0 resolves to 0. */
  lemma DynamicCountWraps(dependency: Kind, roll: nat)
    ensures Resolve(Dynamic(dependency, 0), _ => 0x8000_0000, roll) == 0
  {
  }
}

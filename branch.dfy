/** A branch of a grammar rule: the terms of one alternative, in order, and a flag saying
    that the branch refers back to its own rule. A term is either a reference to a rule,
    known by the rule's name and scope, or a piece of syntax; each term carries its
    repetition constraint. */
module Branch {
  import opened Utils
  import opened Kinds
  import opened TermConstraint
  import Coll

  datatype Term =
    | RuleTerm(name: string, scope: bv8, kind: Kind, constraint: TermConstraint)
    | SyntaxTerm(syntax: string, kind: Kind, constraint: TermConstraint)

  /** `Term::add_constraint`: the term with its constraint replaced. */
  function WithConstraint(t: Term, c: TermConstraint): (r: Term)
    ensures r.constraint == c && r.kind == t.kind && r.RuleTerm? == t.RuleTerm?
  {
    t.(constraint := c)
  }

  /** A term that `count_rule_occurances(kind)` counts. */
  predicate CountedAs(kind: Kind, t: Term)
  {
    t.RuleTerm? && t.kind == kind
  }

  /** The number of rule terms of `kind`. */
  function CountRule(terms: seq<Term>, kind: Kind): (n: nat)
    ensures n <= |terms|
  {
    if terms == [] then 0
    else CountRule(terms[..|terms| - 1], kind) + (if CountedAs(kind, terms[|terms| - 1]) then 1 else 0)
  }

  /** Counting is additive over concatenation. */
  lemma {:induction false} CountRuleAppend(a: seq<Term>, b: seq<Term>, kind: Kind)
    ensures CountRule(a + b, kind) == CountRule(a, kind) + CountRule(b, kind)
  {
    if b == [] {
      assert a + b == a;
    } else {
      assert (a + b)[..|a + b| - 1] == a + b[..|b| - 1];
      CountRuleAppend(a, b[..|b| - 1], kind);
    }
  }

  /** The count is the number of terms left after keeping only the rule terms of the kind:
      syntax terms and rule terms of other kinds never count. */
  lemma {:induction false} CountIsFilteredSize(terms: seq<Term>, kind: Kind)
    ensures CountRule(terms, kind) == |Coll.Filter(terms, t => CountedAs(kind, t))|
  {
    if terms != [] {
      var n := |terms| - 1;
      CountIsFilteredSize(terms[..n], kind);
      assert terms == terms[..n] + [terms[n]];
      Coll.FilterAppend(terms[..n], [terms[n]], t => CountedAs(kind, t));
    }
  }

  /** A branch as a value: what a rule stores when the branch is added to it. */
  datatype BranchValue = BranchValue(terms: seq<Term>, recursive: bool)

  class Branch {
    var terms: seq<Term>
    var recursive: bool

    /** `Branch()`: empty and not recursive. */
    constructor ()
      ensures terms == [] && !recursive
    {
      terms := [];
      recursive := false;
    }

    /** `Branch(terms)`: adds the terms one by one. */
    constructor FromTerms(ts: seq<Term>)
      ensures terms == ts && !recursive
    {
      terms := [];
      recursive := false;
      new;
      var i := 0;
      while i < |ts|
        invariant 0 <= i <= |ts|
        invariant terms == ts[..i] && !recursive
      {
        Add(ts[i]);
        assert ts[..i + 1] == ts[..i] + [ts[i]];
        i := i + 1;
      }
      assert ts[..|ts|] == ts;
    }

    function Value(): BranchValue
      reads this
    {
      BranchValue(terms, recursive)
    }

    /** `set_recursive_flag`: once set, no method of the branch clears it. */
    method SetRecursiveFlag()
      modifies this
      ensures recursive && terms == old(terms)
    {
      recursive := true;
    }

    /** `add`: the term goes last; the size grows by one. */
    method Add(t: Term)
      modifies this
      ensures terms == old(terms) + [t] && |terms| == old(|terms|) + 1
      ensures recursive == old(recursive)
    {
      terms := terms + [t];
    }

    /** `size`. */
    function Size(): nat
      reads this
    {
      |terms|
    }

    predicate IsEmpty()
      reads this
    {
      terms == []
    }

    /** `count_rule_occurances(kind)`: the loop adds one per rule term of the kind to an
        `unsigned int`, so the count is taken modulo 2^32; it never exceeds the size. */
    method CountRuleOccurances(kind: Kind) returns (out: u32)
      ensures out as int == CountRule(terms, kind) % 0x1_0000_0000
      ensures out as int <= Size()
    {
      out := 0;
      var i := 0;
      while i < |terms|
        invariant 0 <= i <= |terms|
        invariant out as int == CountRule(terms[..i], kind) % 0x1_0000_0000
      {
        assert terms[..i + 1][..i] == terms[..i];
        var add := if CountedAs(kind, terms[i]) then 1 else 0;
        out := ((out as int + add) % 0x1_0000_0000) as u32;
        i := i + 1;
      }
      assert terms[..|terms|] == terms;
    }

    /** `clear`: no term is left; the recursive flag stays as it was. */
    method Clear()
      modifies this
      ensures terms == [] && recursive == old(recursive)
    {
      terms := [];
    }
  }
}

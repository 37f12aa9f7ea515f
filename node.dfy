/** An AST node of the fuzzer as far as its bookkeeping goes: its children, the partition of a
    target count over its children with a cursor into it, and two optional occurrence
    constraints (its own, and the one the grammar added) that decide which branches of a
    rule the node accepts. An occurrence constraint maps rule kinds to the number of times
    a branch must hold a rule term of that kind. */
module Node {
  import opened Wrappers
  import opened Utils
  import opened Kinds
  import opened Br = Branch
  import Partition

  // Node_constraint

  datatype NodeConstraint = NodeConstraint(occurances: map<Kind, u32>)

  /** `unsigned int` addition. */
  function AddU32(a: u32, b: u32): (r: u32)
    ensures r as int == (a as int + b as int) % 0x1_0000_0000
  {
    ((a as int + b as int) % 0x1_0000_0000) as u32
  }

  /** `Node_constraint(rule, occurances)`. */
  function Single(rule: Kind, n: u32): (c: NodeConstraint)
    ensures c.occurances.Keys == {rule} && c.occurances[rule] == n
  {
    NodeConstraint(map[rule := n])
  }

  /** `passed(branch)`: every constrained rule kind occurs in the branch exactly as often as
      required, counting as `count_rule_occurances` does. */
  predicate Passes(c: NodeConstraint, terms: seq<Term>)
  {
    forall rule :: rule in c.occurances ==> CountRule(terms, rule) % 0x1_0000_0000 == c.occurances[rule] as int
  }

  /** The loop of `passed`: the first constrained kind whose count differs rejects. */
  method Passed(c: NodeConstraint, branch: Br.Branch) returns (b: bool)
    ensures b == Passes(c, branch.terms)
  {
    var todo := c.occurances.Keys;
    while todo != {}
      invariant todo <= c.occurances.Keys
      invariant forall rule :: rule in c.occurances && rule !in todo ==> CountRule(branch.terms, rule) % 0x1_0000_0000 == c.occurances[rule] as int
      decreases |todo|
    {
      var rule :| rule in todo;
      var count := branch.CountRuleOccurances(rule);
      if count != c.occurances[rule] {
        return false;
      }
      todo := todo - {rule};
    }
    return true;
  }

  /** `set_occurances_for_rule`: the rule's count becomes `n`, whatever it was; nothing else
      changes. */
  function SetOccurances(c: NodeConstraint, rule: Kind, n: u32): (r: NodeConstraint)
    ensures r.occurances.Keys == c.occurances.Keys + {rule} && r.occurances[rule] == n
    ensures forall k :: k in c.occurances && k != rule ==> r.occurances[k] == c.occurances[k]
  {
    NodeConstraint(c.occurances[rule := n])
  }

  /** `add`: an existing rule's count grows by `n` (modulo 2^32); a new rule gets `n`; nothing
      else changes. */
  function AddOccurances(c: NodeConstraint, rule: Kind, n: u32): (r: NodeConstraint)
    ensures r.occurances.Keys == c.occurances.Keys + {rule}
    ensures rule in c.occurances ==> r.occurances[rule] as int == (c.occurances[rule] as int + n as int) % 0x1_0000_0000
    ensures rule !in c.occurances ==> r.occurances[rule] == n
    ensures forall k :: k in c.occurances && k != rule ==> r.occurances[k] == c.occurances[k]
  {
    if rule in c.occurances then NodeConstraint(c.occurances[rule := AddU32(c.occurances[rule], n)])
    else NodeConstraint(c.occurances[rule := n])
  }

  /** `add_constraint` and `add_grammar_constraint`: add to the constraint, creating it when
      there is none. */
  function AddTo(c: Option<NodeConstraint>, rule: Kind, n: u32): NodeConstraint
  {
    if c.Some? then AddOccurances(c.value, rule, n) else Single(rule, n)
  }

  function Entries(c: Option<NodeConstraint>): map<Kind, u32>
  {
    if c.Some? then c.value.occurances else map[]
  }

  /** Each entry of `extra` added to `base`. */
  function Merge(base: map<Kind, u32>, extra: map<Kind, u32>): (r: map<Kind, u32>)
    ensures r.Keys == base.Keys + extra.Keys
  {
    map k | k in base.Keys + extra.Keys ::
      if k in base && k in extra then AddU32(base[k], extra[k]) else if k in extra then extra[k] else base[k]
  }

  /** The constraint after adding every entry of `m`, one by one, as `add_grammar_constraint`
      does; the order does not matter, since every rule is added once. */
  function AddAll(c: Option<NodeConstraint>, m: map<Kind, u32>): Option<NodeConstraint>
  {
    if m == map[] then c else Some(NodeConstraint(Merge(Entries(c), m)))
  }

  /** The constraint after setting every entry of `m`, creating the constraint for the first
      one when there is none. */
  function SetAll(c: Option<NodeConstraint>, m: map<Kind, u32>): Option<NodeConstraint>
  {
    if m == map[] then c else Some(NodeConstraint(Entries(c) + m))
  }

  /** The child's grammar constraint after `add_child`: with both a parent grammar constraint
      and a given one, the parent's entries are added and then the given entries overwrite;
      with only a given one, its entries are added; otherwise it stays. */
  function MergedGrammar(parent: Option<NodeConstraint>, own: Option<NodeConstraint>, given: Option<NodeConstraint>): Option<NodeConstraint>
  {
    if given.Some? && parent.Some? then SetAll(AddAll(own, parent.value.occurances), given.value.occurances)
    else if parent.None? && given.Some? then AddAll(own, given.value.occurances)
    else own
  }

  /** The child's own constraint after `add_child`: every grammar entry overwrites it. */
  function Overridden(constraint: Option<NodeConstraint>, grammar: Option<NodeConstraint>): Option<NodeConstraint>
  {
    if constraint.Some? && grammar.Some? then Some(NodeConstraint(constraint.value.occurances + grammar.value.occurances))
    else constraint
  }

  /** After `add_child`, on every rule the grammar constraint names, the child's own
      constraint requires what the grammar constraint requires; its other rules keep their
      counts. */
  lemma GrammarOverridesOwn(constraint: Option<NodeConstraint>, grammar: Option<NodeConstraint>)
    requires constraint.Some? && grammar.Some?
    ensures var r := Overridden(constraint, grammar).value.occurances;
            (forall k :: k in grammar.value.occurances ==> k in r && r[k] == grammar.value.occurances[k])
            && (forall k :: k in constraint.value.occurances && k !in grammar.value.occurances ==> r[k] == constraint.value.occurances[k])
            && r.Keys == constraint.value.occurances.Keys + grammar.value.occurances.Keys
  {
  }

  /** When the parent has a grammar constraint, the given entries win in the child's grammar
      constraint; on the parent's other rules the parent's count is added (modulo 2^32) to
      the child's own, and the child's remaining rules keep their counts. */
  lemma GivenWins(parent: NodeConstraint, own: Option<NodeConstraint>, given: NodeConstraint)
    ensures var g := MergedGrammar(Some(parent), own, Some(given));
            var e := Entries(g);
            (forall k :: k in given.occurances ==> k in e && e[k] == given.occurances[k])
            && e.Keys == Entries(own).Keys + parent.occurances.Keys + given.occurances.Keys
    ensures var e := Entries(MergedGrammar(Some(parent), own, Some(given)));
            forall k :: k in parent.occurances && k !in given.occurances ==>
              e[k] as int == (if k in Entries(own) then (Entries(own)[k] as int + parent.occurances[k] as int) % 0x1_0000_0000
                              else parent.occurances[k] as int)
    ensures var e := Entries(MergedGrammar(Some(parent), own, Some(given)));
            forall k :: k in Entries(own) && k !in parent.occurances && k !in given.occurances ==> e[k] == Entries(own)[k]
  {
  }

  /** Without a parent grammar constraint, a given count is added to the child's own count on
      the same rule. */
  lemma GivenAddsWithoutParent(own: NodeConstraint, given: NodeConstraint, k: Kind)
    requires k in own.occurances && k in given.occurances
    ensures var e := Entries(MergedGrammar(None, Some(own), Some(given)));
            k in e && e[k] as int == (own.occurances[k] as int + given.occurances[k] as int) % 0x1_0000_0000
  {
  }

  /** The entries of `m` whose rule is in `done`. */
  function Restrict(m: map<Kind, u32>, done: set<Kind>): map<Kind, u32>
  {
    map k | k in m.Keys && k in done :: m[k]
  }

  lemma RestrictAll(m: map<Kind, u32>)
    ensures Restrict(m, m.Keys) == m
  {
  }

  lemma AddAllStep(c: Option<NodeConstraint>, m: map<Kind, u32>, done: set<Kind>, k: Kind)
    requires k in m && k !in done
    ensures AddAll(c, Restrict(m, done + {k})) == Some(AddTo(AddAll(c, Restrict(m, done)), k, m[k]))
  {
    var before := Restrict(m, done);
    RestrictStep(m, done, k);
    assert k !in before;
    MergeSnoc(Entries(c), before, k, m[k]);
    if before == map[] {
      MergeEmpty(Entries(c));
    }
  }

  /** Merging one more entry is adding it to the merge so far. */
  lemma MergeSnoc(base: map<Kind, u32>, before: map<Kind, u32>, k: Kind, v: u32)
    requires k !in before
    ensures Merge(base, before[k := v]) == AddOccurances(NodeConstraint(Merge(base, before)), k, v).occurances
  {
    var l := Merge(base, before[k := v]);
    var r := AddOccurances(NodeConstraint(Merge(base, before)), k, v).occurances;
    assert l.Keys == r.Keys;
    forall j | j in l.Keys
      ensures l[j] == r[j]
    {
    }
  }

  lemma MergeEmpty(base: map<Kind, u32>)
    ensures Merge(base, map[]) == base
  {
  }

  lemma SetAllStep(c: Option<NodeConstraint>, m: map<Kind, u32>, done: set<Kind>, k: Kind)
    requires k in m && k !in done
    ensures var prev := SetAll(c, Restrict(m, done));
            SetAll(c, Restrict(m, done + {k}))
              == Some(if prev.Some? then SetOccurances(prev.value, k, m[k]) else Single(k, m[k]))
  {
    var before := Restrict(m, done);
    var after := Restrict(m, done + {k});
    RestrictStep(m, done, k);
    if before == map[] {
      assert after == map[k := m[k]];
      if c.None? {
        assert Entries(c) + after == map[k := m[k]];
      } else {
        assert Entries(c) + after == c.value.occurances[k := m[k]];
      }
    } else {
      assert Entries(c) + after == (Entries(c) + before)[k := m[k]];
    }
  }

  /** `SetAllStep` for the loop that removes `k` from the keys still to set. */
  lemma SetAllPending(c: Option<NodeConstraint>, m: map<Kind, u32>, todo: set<Kind>, k: Kind)
    requires k in todo && todo <= m.Keys
    ensures var prev := SetAll(c, Restrict(m, m.Keys - todo));
            SetAll(c, Restrict(m, m.Keys - (todo - {k})))
              == Some(if prev.Some? then SetOccurances(prev.value, k, m[k]) else Single(k, m[k]))
  {
    assert m.Keys - (todo - {k}) == (m.Keys - todo) + {k};
    SetAllStep(c, m, m.Keys - todo, k);
  }

  lemma RestrictStep(m: map<Kind, u32>, done: set<Kind>, k: Kind)
    requires k in m
    ensures Restrict(m, done + {k}) == Restrict(m, done)[k := m[k]]
  {
  }

  lemma OverrideStep(base: map<Kind, u32>, m: map<Kind, u32>, done: set<Kind>, k: Kind)
    requires k in m
    ensures (base + Restrict(m, done))[k := m[k]] == base + Restrict(m, done + {k})
  {
    RestrictStep(m, done, k);
  }

  lemma OverridePending(base: map<Kind, u32>, m: map<Kind, u32>, todo: set<Kind>, k: Kind)
    requires todo <= m.Keys && k in todo
    ensures (base + Restrict(m, m.Keys - todo))[k := m[k]] == base + Restrict(m, m.Keys - (todo - {k}))
  {
    OverrideStep(base, m, m.Keys - todo, k);
    assert m.Keys - (todo - {k}) == (m.Keys - todo) + {k};
  }

  lemma OverrideDone(base: map<Kind, u32>, m: map<Kind, u32>, todo: set<Kind>)
    requires todo == {}
    ensures base + Restrict(m, m.Keys - todo) == base + m
  {
    assert m.Keys - todo == m.Keys;
    RestrictAll(m);
  }

  // Node

  class Node {
    const kind: Kind
    var children: seq<Node>
    var childPartition: seq<int>
    var partitionCounter: nat
    var constraint: Option<NodeConstraint>
    var grammarConstraint: Option<NodeConstraint>

    /** A node of a kind with an optional constraint, no children and no partition. */
    constructor (kind: Kind, constraint: Option<NodeConstraint>)
      ensures this.kind == kind && this.constraint == constraint
      ensures children == [] && childPartition == [] && partitionCounter == 0 && grammarConstraint == None
    {
      this.kind := kind;
      this.constraint := constraint;
      children := [];
      childPartition := [];
      partitionCounter := 0;
      grammarConstraint := None;
    }

    /** `add_constraint`. */
    method AddConstraint(rule: Kind, n: u32)
      modifies this
      ensures constraint == Some(AddTo(old(constraint), rule, n))
      ensures grammarConstraint == old(grammarConstraint) && children == old(children)
      ensures childPartition == old(childPartition) && partitionCounter == old(partitionCounter)
    {
      if constraint.Some? {
        constraint := Some(AddOccurances(constraint.value, rule, n));
      } else {
        constraint := Some(Single(rule, n));
      }
    }

    /** `add_grammar_constraint`. */
    method AddGrammarConstraint(rule: Kind, n: u32)
      modifies this
      ensures grammarConstraint == Some(AddTo(old(grammarConstraint), rule, n))
      ensures constraint == old(constraint) && children == old(children)
      ensures childPartition == old(childPartition) && partitionCounter == old(partitionCounter)
    {
      if grammarConstraint.Some? {
        grammarConstraint := Some(AddOccurances(grammarConstraint.value, rule, n));
      } else {
        grammarConstraint := Some(Single(rule, n));
      }
    }

    /** The loop adding every entry of `m` to the grammar constraint. */
    method AddGrammarEach(m: map<Kind, u32>)
      modifies this
      ensures grammarConstraint == AddAll(old(grammarConstraint), m)
      ensures constraint == old(constraint) && children == old(children)
      ensures childPartition == old(childPartition) && partitionCounter == old(partitionCounter)
    {
      var todo := m.Keys;
      while todo != {}
        invariant todo <= m.Keys
        invariant grammarConstraint == AddAll(old(grammarConstraint), Restrict(m, m.Keys - todo))
        invariant constraint == old(constraint) && children == old(children)
        invariant childPartition == old(childPartition) && partitionCounter == old(partitionCounter)
        decreases |todo|
      {
        var rule :| rule in todo;
        AddAllStep(old(grammarConstraint), m, m.Keys - todo, rule);
        AddGrammarConstraint(rule, m[rule]);
        assert m.Keys - (todo - {rule}) == (m.Keys - todo) + {rule};
        todo := todo - {rule};
      }
      assert m.Keys - todo == m.Keys;
      RestrictAll(m);
    }

    /** The loop setting every entry of `m` in the grammar constraint, creating it for the
        first entry when there is none. */
    method SetGrammarEach(m: map<Kind, u32>)
      modifies this
      ensures grammarConstraint == SetAll(old(grammarConstraint), m)
      ensures constraint == old(constraint) && children == old(children)
      ensures childPartition == old(childPartition) && partitionCounter == old(partitionCounter)
    {
      var todo := m.Keys;
      while todo != {}
        invariant todo <= m.Keys
        invariant grammarConstraint == SetAll(old(grammarConstraint), Restrict(m, m.Keys - todo))
        invariant constraint == old(constraint) && children == old(children)
        invariant childPartition == old(childPartition) && partitionCounter == old(partitionCounter)
        decreases |todo|
      {
        var rule :| rule in todo;
        SetAllPending(old(grammarConstraint), m, todo, rule);
        if grammarConstraint.Some? {
          grammarConstraint := Some(SetOccurances(grammarConstraint.value, rule, m[rule]));
        } else {
          AddGrammarConstraint(rule, m[rule]);
        }
        todo := todo - {rule};
      }
      assert m.Keys - todo == m.Keys;
      RestrictAll(m);
    }

    /** The last loop of `add_child`: every grammar entry overwrites the own constraint. */
    method OverrideWithGrammar()
      modifies this
      ensures constraint == Overridden(old(constraint), old(grammarConstraint))
      ensures grammarConstraint == old(grammarConstraint) && children == old(children)
      ensures childPartition == old(childPartition) && partitionCounter == old(partitionCounter)
    {
      if constraint.Some? && grammarConstraint.Some? {
        var m := grammarConstraint.value.occurances;
        var occ := constraint.value.occurances;
        var todo := m.Keys;
        while todo != {}
          invariant todo <= m.Keys
          invariant occ == old(constraint).value.occurances + Restrict(m, m.Keys - todo)
          invariant unchanged(this)
          decreases |todo|
        {
          var rule :| rule in todo;
          OverridePending(old(constraint).value.occurances, m, todo, rule);
          occ := occ[rule := m[rule]];
          todo := todo - {rule};
        }
        OverrideDone(old(constraint).value.occurances, m, todo);
        constraint := Some(NodeConstraint(occ));
      }
    }

    /** `add_child`: merges the constraints into the child and appends it last. */
    method AddChild(child: Node, childGrammarConstraint: Option<NodeConstraint>)
      requires child != this
      modifies this, child
      ensures children == old(children) + [child]
      ensures child.grammarConstraint == MergedGrammar(old(grammarConstraint), old(child.grammarConstraint), childGrammarConstraint)
      ensures child.constraint == Overridden(old(child.constraint), child.grammarConstraint)
      ensures child.children == old(child.children) && child.childPartition == old(child.childPartition)
      ensures child.partitionCounter == old(child.partitionCounter)
      ensures constraint == old(constraint) && grammarConstraint == old(grammarConstraint)
      ensures childPartition == old(childPartition) && partitionCounter == old(partitionCounter)
    {
      if childGrammarConstraint.Some? && grammarConstraint.Some? {
        child.AddGrammarEach(grammarConstraint.value.occurances);
        child.SetGrammarEach(childGrammarConstraint.value.occurances);
      } else if grammarConstraint.None? && childGrammarConstraint.Some? {
        child.AddGrammarEach(childGrammarConstraint.value.occurances);
      }
      child.OverrideWithGrammar();
      children := children + [child];
    }

    /** `child_at`: the child at the index, or null when the index is out of range. */
    method ChildAt(index: nat) returns (c: Option<Node>)
      ensures index < |children| ==> c == Some(children[index])
      ensures index >= |children| ==> c == None
    {
      if index < |children| {
        c := Some(children[index]);
      } else {
        c := None;
      }
    }

    /** `branch_satisfies_constraint`. */
    predicate BranchSatisfiesConstraint(terms: seq<Term>)
      reads this
    {
      (constraint.None? || Passes(constraint.value, terms))
      && (grammarConstraint.None? || Passes(grammarConstraint.value, terms))
    }

    /** `set_constraint(rule_kinds, occurances)`: reports an error (and carries on) when the
        lengths differ; the constraint maps each kind to its occurrence count, a later
        repeat of a kind winning. The loop reads one count per kind, so the counts must be at
        least as many as the kinds. */
    method SetConstraint(ruleKinds: seq<Kind>, occurances: seq<u32>) returns (reportedError: bool)
      requires |occurances| >= |ruleKinds|
      modifies this
      ensures reportedError <==> |ruleKinds| != |occurances|
      ensures constraint == Some(NodeConstraint(ZipMap(ruleKinds, occurances)))
      ensures grammarConstraint == old(grammarConstraint) && children == old(children)
      ensures childPartition == old(childPartition) && partitionCounter == old(partitionCounter)
    {
      reportedError := |ruleKinds| != |occurances|;
      var gatesetMap: map<Kind, u32> := map[];
      var i := 0;
      while i < |ruleKinds|
        invariant 0 <= i <= |ruleKinds|
        invariant gatesetMap == ZipMap(ruleKinds[..i], occurances)
      {
        assert ruleKinds[..i + 1][..i] == ruleKinds[..i];
        gatesetMap := gatesetMap[ruleKinds[i] := occurances[i]];
        i := i + 1;
      }
      assert ruleKinds[..|ruleKinds|] == ruleKinds;
      constraint := Some(NodeConstraint(gatesetMap));
    }

    /** `get_next_child_target`. */
    method GetNextChildTarget() returns (target: int)
      modifies this
      ensures (target, partitionCounter) == NextTarget(old(childPartition), old(partitionCounter))
      ensures childPartition == old(childPartition) && children == old(children)
      ensures constraint == old(constraint) && grammarConstraint == old(grammarConstraint)
    {
      if partitionCounter < |childPartition| {
        target := childPartition[partitionCounter];
        partitionCounter := partitionCounter + 1;
      } else {
        target := 1;
      }
    }

    /** `make_partition(target, n_children)` with the draws given by `rolls`: `false` when the
        rolls run out while drawing cuts (the source would go on drawing). The two simple
        cases replace the partition; the general case appends to it. */
    method MakePartition(target: int, nChildren: int, rolls: seq<nat>) returns (finished: bool)
      requires 1 <= nChildren && (nChildren == 1 || 1 <= target) && target < 0x8000_0000
      modifies this
      ensures var p := Partition.Partition(target, nChildren, rolls);
              finished == p.Some?
              && (finished ==> childPartition == (if Replaces(target, nChildren) then [] else old(childPartition)) + p.value)
      ensures !finished ==> childPartition == old(childPartition)
      ensures partitionCounter == old(partitionCounter) && children == old(children)
      ensures constraint == old(constraint) && grammarConstraint == old(grammarConstraint)
    {
      if nChildren == 1 || target == 1 {
        childPartition := [target];
        return true;
      } else if target == nChildren {
        childPartition := seq(nChildren, _ => 1);
        return true;
      }
      var drawn := Partition.DrawCutsLoop(target, nChildren, rolls);
      if drawn.None? {
        return false;
      }
      var cuts := Partition.SortAsc(drawn.value);
      var gaps := GapsLoop(cuts, target);
      childPartition := childPartition + gaps;
      return true;
    }

    /** `make_control_flow_partition`: the partition, then with one child no `else` and no
        `elif` may follow; otherwise the coin decides whether one `else` or one `elif` must. */
    method MakeControlFlowPartition(target: int, nChildren: int, rolls: seq<nat>, coin: nat) returns (finished: bool)
      requires 1 <= nChildren && (nChildren == 1 || 1 <= target) && target < 0x8000_0000
      modifies this
      ensures var p := Partition.Partition(target, nChildren, rolls);
              finished == p.Some?
              && (finished ==> childPartition == (if Replaces(target, nChildren) then [] else old(childPartition)) + p.value)
      ensures !finished ==> childPartition == old(childPartition) && constraint == old(constraint)
      ensures finished ==> constraint == Some(ControlFlowConstraint(old(constraint), nChildren, coin))
      ensures partitionCounter == old(partitionCounter)
      ensures grammarConstraint == old(grammarConstraint) && children == old(children)
    {
      finished := MakePartition(target, nChildren, rolls);
      if !finished {
        return;
      }
      if nChildren == 1 {
        AddConstraint(ElseStmt, 0);
        AddConstraint(ElifStmt, 0);
      } else if RandomUint(1, 0, coin) != 0 {
        AddConstraint(ElseStmt, 1);
      } else {
        AddConstraint(ElifStmt, 1);
      }
    }
  }

  /** The pushes of `make_partition`'s general case: the first cut, each difference of
      neighbouring cuts, then what is left up to the target. */
  method GapsLoop(cuts: seq<int>, target: int) returns (gaps: seq<int>)
    ensures gaps == Partition.Gaps(cuts, target)
  {
    if cuts == [] {
      return [target];
    }
    gaps := [cuts[0]];
    var i := 1;
    while i < |cuts|
      invariant 1 <= i <= |cuts|
      invariant gaps == Partition.Gaps(cuts[..i - 1], cuts[i - 1])
    {
      assert cuts[..i][..i - 1] == cuts[..i - 1];
      gaps := gaps + [cuts[i] - cuts[i - 1]];
      i := i + 1;
    }
    assert cuts[..|cuts| - 1] == cuts[..|cuts|][..|cuts| - 1];
    assert cuts[..|cuts|] == cuts;
    gaps := gaps + [target - cuts[|cuts| - 1]];
  }

  /** The two cases of `make_partition` that assign the partition instead of appending. */
  predicate Replaces(target: int, nChildren: int)
  {
    nChildren == 1 || target == 1 || target == nChildren
  }

  /** The map `set_constraint` builds: kind by kind, a later repeat overwriting. */
  function ZipMap(kinds: seq<Kind>, occ: seq<u32>): map<Kind, u32>
    requires |occ| >= |kinds|
  {
    if kinds == [] then map[] else ZipMap(kinds[..|kinds| - 1], occ)[kinds[|kinds| - 1] := occ[|kinds| - 1]]
  }

  /** The constrained kinds are exactly the given kinds, and each is required as often as
      the count at its last position says. */
  lemma {:induction false} ZipMapSpec(kinds: seq<Kind>, occ: seq<u32>)
    requires |occ| >= |kinds|
    ensures ZipMap(kinds, occ).Keys == set k | k in kinds
    ensures forall i :: 0 <= i < |kinds| && (forall j :: i < j < |kinds| ==> kinds[j] != kinds[i]) ==> ZipMap(kinds, occ)[kinds[i]] == occ[i]
  {
    if kinds != [] {
      var n := |kinds| - 1;
      ZipMapSpec(kinds[..n], occ);
      assert (set k | k in kinds) == (set k | k in kinds[..n]) + {kinds[n]};
    }
  }

  /** What `get_next_child_target` returns and where the cursor goes. */
  function NextTarget(partition: seq<int>, counter: nat): (int, nat)
  {
    if counter < |partition| then (partition[counter], counter + 1) else (1, counter)
  }

  /** The results of `calls` successive calls from cursor `counter`. */
  function Targets(partition: seq<int>, counter: nat, calls: nat): (ts: seq<int>)
    decreases calls
    ensures |ts| == calls
  {
    if calls == 0 then []
    else
      var (t, next) := NextTarget(partition, counter);
      [t] + Targets(partition, next, calls - 1)
  }

  /** Successive calls from a fresh cursor return the partition's entries in order, then 1
      once they are exhausted. */
  lemma {:induction false} TargetsInOrder(partition: seq<int>, counter: nat, calls: nat)
    decreases calls
    requires counter <= |partition|
    ensures forall i :: 0 <= i < calls ==>
              Targets(partition, counter, calls)[i] == if counter + i < |partition| then partition[counter + i] else 1
  {
    if calls > 0 {
      var next := NextTarget(partition, counter).1;
      TargetsInOrder(partition, next, calls - 1);
      forall i | 1 <= i < calls
        ensures Targets(partition, counter, calls)[i] == if counter + i < |partition| then partition[counter + i] else 1
      {
        assert Targets(partition, counter, calls)[i] == Targets(partition, next, calls - 1)[i - 1];
      }
    }
  }

  /** The constraint after `make_control_flow_partition`. */
  function ControlFlowConstraint(c: Option<NodeConstraint>, nChildren: int, coin: nat): NodeConstraint
  {
    if nChildren == 1 then AddTo(Some(AddTo(c, ElseStmt, 0)), ElifStmt, 0)
    else if RandomUint(1, 0, coin) != 0 then AddTo(c, ElseStmt, 1)
    else AddTo(c, ElifStmt, 1)
  }

  /** On a node without a constraint: one child forbids both `else` and `elif`; several
      children require exactly one of them once, and each is possible. */
  lemma ControlFlowConstraintSpec(nChildren: int, coin: nat)
    ensures nChildren == 1 ==> ControlFlowConstraint(None, nChildren, coin).occurances == map[ElseStmt := 0, ElifStmt := 0]
    ensures nChildren != 1 ==>
              var m := ControlFlowConstraint(None, nChildren, coin).occurances;
              m == map[ElseStmt := 1] || m == map[ElifStmt := 1]
    ensures nChildren != 1 ==> ControlFlowConstraint(None, nChildren, 0).occurances == map[ElifStmt := 1]
    ensures nChildren != 1 ==> ControlFlowConstraint(None, nChildren, 1).occurances == map[ElseStmt := 1]
  {
  }
}

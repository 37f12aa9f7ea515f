/** The grammar front end of the fuzzer: a cursor over the token stream of a grammar file
    (the meta-grammar tokens followed by the lexed file), the table of rules found so far
    (looked up by name and scope, appended to when a rule is first met), the stack of rules
    and branches being built, and the constraints that wildcards and counts put on the last
    term of the branch being built. */
module Grammar {
  import opened Wrappers
  import opened Utils
  import opened Text
  import opened Kinds
  import opened TermConstraint
  import opened Lexer
  import opened Br = Branch

  /** Scope flags: bit 0 global, bit 1 external, bit 2 internal. */
  type Scope = bv8

  const NoScope: Scope := 0
  const GlobScope: Scope := 1
  const ExtScope: Scope := 2
  const IntScope: Scope := 4
  const AllScopes: Scope := 7

  /** `scope_matches(a, b)`: the two scopes share a flag. */
  predicate ScopeMatches(a: Scope, b: Scope)
  {
    a & b != 0
  }

  /** `WILDCARD_MAX`: the most repetitions `*` and `+` allow. */
  const WildcardMax: u32 := 10

  // rules

  class Rule {
    const token: Token
    const scope: Scope
    var branches: seq<BranchValue>
    var recursive: bool

    /** `Rule(token, scope)`: no branch yet, not recursive. */
    constructor (token: Token, scope: Scope)
      ensures this.token == token && this.scope == scope
      ensures branches == [] && !recursive
    {
      this.token := token;
      this.scope := scope;
      branches := [];
      recursive := false;
    }

    /** `operator==` against a rule made of this token and scope: the same token, and scopes
        that share a flag. */
    predicate SameAs(t: Token, s: Scope)
    {
      token == t && ScopeMatches(scope, s)
    }

    /** `matches(name, scope)`: the same name, and scopes that share a flag. */
    predicate Matches(name: string, s: Scope)
    {
      token.value == name && ScopeMatches(scope, s)
    }

    /** `add(branch)`: the branch goes last; a recursive branch makes the rule recursive,
        and nothing makes it not recursive again. */
    method Add(b: BranchValue)
      modifies this
      ensures branches == old(branches) + [b]
      ensures recursive == (old(recursive) || b.recursive)
    {
      branches := branches + [b];
      if b.recursive {
        recursive := true;
      }
    }

    /** `clear`: drops every branch; the recursive flag stays. */
    method Clear()
      modifies this
      ensures branches == [] && recursive == old(recursive)
    {
      branches := [];
    }
  }

  /** The position of the first rule of the table with this name and a matching scope. */
  function FirstMatching(rules: seq<Rule>, name: string, scope: Scope): (r: Option<nat>)
    ensures r.Some? ==> r.value < |rules| && rules[r.value].Matches(name, scope)
    ensures r.Some? ==> forall j :: 0 <= j < r.value ==> !rules[j].Matches(name, scope)
    ensures r.None? ==> forall j :: 0 <= j < |rules| ==> !rules[j].Matches(name, scope)
  {
    if rules == [] then None
    else if rules[0].Matches(name, scope) then Some(0)
    else
      var rest := FirstMatching(rules[1..], name, scope);
      if rest.None? then None else Some(rest.value + 1)
  }

  /** The position of the first rule of the table equal to a rule of this token and scope. */
  function FirstSame(rules: seq<Rule>, t: Token, scope: Scope): (r: Option<nat>)
    ensures r.Some? ==> r.value < |rules| && rules[r.value].SameAs(t, scope)
    ensures r.Some? ==> forall j :: 0 <= j < r.value ==> !rules[j].SameAs(t, scope)
    ensures r.None? ==> forall j :: 0 <= j < |rules| ==> !rules[j].SameAs(t, scope)
  {
    if rules == [] then None
    else if rules[0].SameAs(t, scope) then Some(0)
    else
      var rest := FirstSame(rules[1..], t, scope);
      if rest.None? then None else Some(rest.value + 1)
  }

  /** No rule of the table equals an earlier one. */
  predicate NoDuplicates(rules: seq<Rule>)
  {
    forall i, j :: 0 <= i < j < |rules| ==> !rules[j].SameAs(rules[i].token, rules[i].scope)
  }

  /** A rule equal to none of the table can go last: the table keeps holding no two equal
      rules, and a lookup with the rule's own token and scope finds the new last entry. */
  lemma AppendNew(rules: seq<Rule>, r: Rule, t: Token, scope: Scope)
    requires forall j :: 0 <= j < |rules| ==> !rules[j].SameAs(t, scope)
    requires r.token == t && r.scope == scope
    ensures NoDuplicates(rules) ==> NoDuplicates(rules + [r])
    ensures scope != NoScope ==> FirstSame(rules + [r], t, scope) == Some(|rules|)
  {
    var all := rules + [r];
    forall i | 0 <= i < |rules|
      ensures !r.SameAs(rules[i].token, rules[i].scope)
    {
      assert scope & rules[i].scope == rules[i].scope & scope;
    }
    if scope != NoScope {
      assert scope & scope == scope;
      assert all[|rules|] == r && r.SameAs(t, scope);
    }
  }

  /** A rule with no scope flag equals no rule, so a lookup with it never finds one. */
  lemma NoScopeNeverFound(rules: seq<Rule>, t: Token)
    ensures FirstSame(rules, t, NoScope).None?
  {
    forall j | 0 <= j < |rules|
      ensures !rules[j].SameAs(t, NoScope)
    {
      assert rules[j].scope & NoScope == 0;
    }
  }

  /** A rule and branch under construction. */
  class Current {
    const rule: Rule
    const branch: Br.Branch

    /** `Current(rule)`: with an empty working branch. */
    constructor (rule: Rule)
      ensures this.rule == rule && fresh(branch) && branch.terms == [] && !branch.recursive
    {
      this.rule := rule;
      branch := new Br.Branch();
    }
  }

  // the grammar

  /** What `consume` leaves as the current token at a position. */
  function CurrentAt(tokens: seq<Token>, pointer: nat): Result<Token, string>
    requires pointer <= |tokens|
  {
    if pointer == |tokens| then Err("Out of tokens!") else Ok(tokens[pointer])
  }

  /** What `peek` leaves as the next token at a position. */
  function NextAt(tokens: seq<Token>, pointer: nat): Result<Token, string>
    requires pointer < |tokens|
  {
    if pointer + 1 == |tokens| then Err("Cannot peek!") else Ok(tokens[pointer + 1])
  }

  class Grammar {
    const tokens: seq<Token>
    var tokenPointer: nat
    var currToken: Result<Token, string>
    var nextToken: Result<Token, string>
    var stack: seq<Current>
    var rulePointers: seq<Rule>

    /** The cursor never passes the end; a current token that is not an error is the token
        under the cursor; at the end the current token is an error. */
    predicate Valid()
      reads this
    {
      tokenPointer <= |tokens|
      && (currToken.Ok? ==> tokenPointer < |tokens| && currToken.value == tokens[tokenPointer])
      && (tokenPointer == |tokens| ==> currToken.Err?)
    }

    /** The next token is the one after the cursor. */
    predicate Peeked()
      reads this
    {
      tokenPointer < |tokens| && nextToken == NextAt(tokens, tokenPointer)
    }

    /** `Grammar(filename, meta_grammar_tokens)`: the meta-grammar tokens, then the tokens of
        the lexed file; the cursor on the first token, and the next one peeked. The stream
        ends with the lexer's end-of-file token. */
    constructor (metaTokens: seq<Token>, lines: seq<seq<string>>)
      ensures tokens == metaTokens + LexTokens(lines)
      ensures tokens[|tokens| - 1].kind == Eof
      ensures tokenPointer == 0 && currToken == Ok(tokens[0]) && Valid() && Peeked()
      ensures stack == [] && rulePointers == []
    {
      tokens := metaTokens + LexTokens(lines);
      tokenPointer := 0;
      currToken := Err("");
      nextToken := Err("");
      stack := [];
      rulePointers := [];
      new;
      Consume(0);
      Peek();
    }

    /** `consume(n)`: moves the cursor `n` tokens on; the current token is then the one under
        the cursor, or an error exactly when the cursor has reached the end. */
    method Consume(n: nat)
      requires tokenPointer + n <= |tokens|
      modifies this
      ensures tokenPointer == old(tokenPointer) + n
      ensures currToken.Err? <==> tokenPointer == |tokens|
      ensures currToken.Ok? ==> currToken.value == tokens[tokenPointer]
      ensures currToken == CurrentAt(tokens, tokenPointer) && Valid()
      ensures nextToken == old(nextToken) && stack == old(stack) && rulePointers == old(rulePointers)
    {
      tokenPointer := tokenPointer + n;
      if tokenPointer == |tokens| {
        currToken := Err("Out of tokens!");
      } else {
        currToken := Ok(tokens[tokenPointer]);
      }
    }

    /** `consume(kind)`: moves on by one when the current token has the kind; otherwise the
        cursor stays and the current token becomes an error. */
    method ConsumeKind(kind: Kind)
      requires Valid() && currToken.Ok?
      modifies this
      ensures old(currToken).value.kind == kind ==> tokenPointer == old(tokenPointer) + 1 && currToken == CurrentAt(tokens, tokenPointer)
      ensures old(currToken).value.kind != kind ==> tokenPointer == old(tokenPointer) && currToken == Err("Expected syntax not matched")
      ensures Valid()
      ensures nextToken == old(nextToken) && stack == old(stack) && rulePointers == old(rulePointers)
    {
      if currToken.value.kind == kind {
        Consume(1);
      } else {
        currToken := Err("Expected syntax not matched");
      }
    }

    /** `consume(val)`: moves on by one when the current token has the text; otherwise the
        cursor stays and the current token becomes an error. */
    method ConsumeValue(val: string)
      requires Valid() && currToken.Ok?
      modifies this
      ensures old(currToken).value.value == val ==> tokenPointer == old(tokenPointer) + 1 && currToken == CurrentAt(tokens, tokenPointer)
      ensures old(currToken).value.value != val ==> tokenPointer == old(tokenPointer) && currToken == Err("Expected syntax not matched")
      ensures Valid()
      ensures nextToken == old(nextToken) && stack == old(stack) && rulePointers == old(rulePointers)
    {
      if currToken.value.value == val {
        Consume(1);
      } else {
        currToken := Err("Expected syntax not matched");
      }
    }

    /** `peek`: the next token is the one after the cursor, or an error exactly when the
        cursor is on the last token. */
    method Peek()
      requires tokenPointer < |tokens|
      modifies this
      ensures nextToken.Err? <==> tokenPointer + 1 == |tokens|
      ensures tokenPointer + 1 < |tokens| ==> nextToken == Ok(tokens[tokenPointer + 1])
      ensures Peeked()
      ensures tokenPointer == old(tokenPointer) && currToken == old(currToken)
      ensures stack == old(stack) && rulePointers == old(rulePointers)
    {
      if tokenPointer + 1 == |tokens| {
        nextToken := Err("Cannot peek!");
      } else {
        nextToken := Ok(tokens[tokenPointer + 1]);
      }
    }

    /** The step `build_grammar` takes after handling a token other than the end-of-file one:
        `consume(1)` then `peek()`. As the stream ends with end-of-file, the step never runs
        off the end, and the token peeked before becomes the current one. */
    method Advance()
      requires Valid() && currToken.Ok? && currToken.value.kind != Eof
      requires tokens[|tokens| - 1].kind == Eof
      modifies this
      ensures tokenPointer == old(tokenPointer) + 1 && tokenPointer < |tokens|
      ensures currToken == Ok(tokens[tokenPointer]) && Valid() && Peeked()
      ensures old(Peeked()) ==> currToken == old(nextToken)
      ensures stack == old(stack) && rulePointers == old(rulePointers)
    {
      Consume(1);
      Peek();
    }

    /** `is_rule(name, scope)`: some rule of the table has the name and a matching scope. */
    method IsRule(name: string, scope: Scope) returns (b: bool)
      ensures b <==> exists i :: 0 <= i < |rulePointers| && rulePointers[i].Matches(name, scope)
      ensures b == FirstMatching(rulePointers, name, scope).Some?
    {
      var i := 0;
      while i < |rulePointers|
        invariant 0 <= i <= |rulePointers|
        invariant forall j :: 0 <= j < i ==> !rulePointers[j].Matches(name, scope)
      {
        if rulePointers[i].Matches(name, scope) {
          return true;
        }
        i := i + 1;
      }
      return false;
    }

    /** `get_rule_pointer_if_exists(name, scope)`: the first rule of the table with the name
        and a matching scope, or null. */
    method GetRulePointerIfExists(name: string, scope: Scope) returns (r: Option<Rule>)
      ensures var f := FirstMatching(rulePointers, name, scope);
              (f.None? ==> r.None?) && (f.Some? ==> r == Some(rulePointers[f.value]))
    {
      var i := 0;
      while i < |rulePointers|
        invariant 0 <= i <= |rulePointers|
        invariant forall j :: 0 <= j < i ==> !rulePointers[j].Matches(name, scope)
      {
        if rulePointers[i].Matches(name, scope) {
          return Some(rulePointers[i]);
        }
        i := i + 1;
      }
      return None;
    }

    /** `get_rule_pointer(token, scope)`: the first rule of the table equal to a rule of
        this token and scope; when there is none, a new empty rule is appended and returned.
        The table keeps holding no two equal rules, and afterwards the same lookup gives the
        rule returned. */
    method GetRulePointer(t: Token, scope: Scope) returns (r: Rule)
      modifies this
      ensures var f := FirstSame(old(rulePointers), t, scope);
              (f.Some? ==> r == old(rulePointers)[f.value] && rulePointers == old(rulePointers))
              && (f.None? ==> fresh(r) && rulePointers == old(rulePointers) + [r]
                              && r.token == t && r.scope == scope && r.branches == [] && !r.recursive)
      ensures NoDuplicates(old(rulePointers)) ==> NoDuplicates(rulePointers)
      ensures scope != NoScope ==> var f := FirstSame(rulePointers, t, scope); f.Some? && rulePointers[f.value] == r
      ensures tokenPointer == old(tokenPointer) && currToken == old(currToken) && nextToken == old(nextToken)
      ensures stack == old(stack)
    {
      var i := 0;
      while i < |rulePointers|
        invariant 0 <= i <= |rulePointers|
        invariant forall j :: 0 <= j < i ==> !rulePointers[j].SameAs(t, scope)
      {
        if rulePointers[i].SameAs(t, scope) {
          return rulePointers[i];
        }
        i := i + 1;
      }
      var before := rulePointers;
      r := new Rule(t, scope);
      rulePointers := rulePointers + [r];
      AppendNew(before, r, t, scope);
    }

    /** `add_branch_to_current_rule`: the working branch goes last in the rule on top of the
        stack, then the working branch is emptied (keeping its recursive flag). */
    method AddBranchToCurrentRule()
      requires |stack| > 0
      modifies stack[|stack| - 1].rule, stack[|stack| - 1].branch
      ensures var top := stack[|stack| - 1];
              top.rule.branches == old(top.rule.branches) + [BranchValue(old(top.branch.terms), old(top.branch.recursive))]
              && top.rule.recursive == (old(top.rule.recursive) || old(top.branch.recursive))
              && top.branch.terms == [] && top.branch.recursive == old(top.branch.recursive)
    {
      var top := stack[|stack| - 1];
      top.rule.Add(top.branch.Value());
      top.branch.Clear();
    }

    /** `add_constraint_to_last_term(constraint)`: the last term of the working branch takes
        the constraint; an empty branch is reported and left alone. */
    method AddConstraintToLastTerm(c: TermConstraint) returns (reportedError: bool)
      requires |stack| > 0
      modifies stack[|stack| - 1].branch
      ensures var b := stack[|stack| - 1].branch;
              (reportedError <==> old(b.terms) == [])
              && (reportedError ==> b.terms == old(b.terms))
              && (!reportedError ==> |b.terms| == |old(b.terms)|
                                     && b.terms[..|b.terms| - 1] == old(b.terms)[..|b.terms| - 1]
                                     && b.terms[|b.terms| - 1] == WithConstraint(old(b.terms)[|b.terms| - 1], c))
              && b.recursive == old(b.recursive)
    {
      var b := stack[|stack| - 1].branch;
      var size := |b.terms|;
      if size == 0 {
        return true;
      }
      b.terms := b.terms[size - 1 := WithConstraint(b.terms[size - 1], c)];
      return false;
    }

    /** The wildcard tokens of `build_grammar`: `?`, `+` or `*` constrains the last term. */
    method ApplyWildcard(kind: Kind) returns (reportedError: bool)
      requires IsWildcard(kind) && |stack| > 0
      modifies stack[|stack| - 1].branch
      ensures var b := stack[|stack| - 1].branch;
              (reportedError <==> old(b.terms) == [])
              && (reportedError ==> b.terms == old(b.terms))
              && (!reportedError ==> |b.terms| == |old(b.terms)| && b.terms[|b.terms| - 1] == WithConstraint(old(b.terms)[|b.terms| - 1], WildcardConstraint(kind).value))
    {
      reportedError := AddConstraintToLastTerm(WildcardConstraint(kind).value);
    }

    /** A number between brackets in `build_grammar`: the last term is repeated exactly that
        many times. A number `stoul` cannot hold aborts the build. */
    method ApplyCount(text: string) returns (aborted: bool, reportedError: bool)
      requires |stack| > 0
      modifies stack[|stack| - 1].branch
      ensures aborted <==> CountConstraint(text).None?
      ensures var b := stack[|stack| - 1].branch;
              (aborted ==> b.terms == old(b.terms))
              && (!aborted ==> (reportedError <==> old(b.terms) == []))
              && (!aborted && !reportedError ==> |b.terms| == |old(b.terms)| && b.terms[|b.terms| - 1] == WithConstraint(old(b.terms)[|b.terms| - 1], CountConstraint(text).value))
    {
      var c := CountConstraint(text);
      if c.None? {
        return true, false;
      }
      aborted := false;
      reportedError := AddConstraintToLastTerm(c.value);
    }
  }

  // constraints set by build_grammar

  /** The constraint a wildcard puts on the last term. */
  function WildcardConstraint(kind: Kind): (c: Option<TermConstraint>)
    ensures c.Some? <==> IsWildcard(kind)
    ensures c.Some? ==> c.value.kind == RandomMax
  {
    if kind == Optional then Some(WithBounds(RandomMax, 0, 1))
    else if kind == OneOrMore then Some(WithBounds(RandomMax, 1, WildcardMax))
    else if kind == ZeroOrMore then Some(WithBounds(RandomMax, 0, WildcardMax))
    else None
  }

  /** `?` repeats a term at most once, `+` at least once, and none more than `WILDCARD_MAX`
      times, whatever the draw. */
  lemma WildcardRepeats(kind: Kind, lookup: Kind -> u32, roll: nat)
    requires IsWildcard(kind)
    ensures var n := Resolve(WildcardConstraint(kind).value, lookup, roll);
            n <= WildcardMax
            && (kind == Optional ==> n <= 1)
            && (kind == OneOrMore ==> n >= 1)
  {
  }

  /** Every repetition count a wildcard allows is drawn by some roll. */
  lemma WildcardCountsReachable(kind: Kind, n: u32, lookup: Kind -> u32) returns (roll: nat)
    requires IsWildcard(kind)
    requires kind == Optional ==> n <= 1
    requires kind == OneOrMore ==> 1 <= n <= WildcardMax
    requires kind == ZeroOrMore ==> n <= WildcardMax
    ensures Resolve(WildcardConstraint(kind).value, lookup, roll) == n
  {
    var c := WildcardConstraint(kind).value;
    roll := EveryBoundedCountOccurs(c.randMin, c.randMax, n, lookup);
  }

  /** The constraint a number between brackets puts on the last term: `safe_stoul(text, 1)`
      as both bounds; `None` when `stoul` throws. */
  function CountConstraint(text: string): (c: Option<TermConstraint>)
    ensures c.Some? ==> c.value.kind == RandomMax && c.value.randMin == c.value.randMax
  {
    var v := SafeStoul(text, 1);
    if v.None? then None else Some(WithBounds(RandomMax, v.value, v.value))
  }

  /** A written count repeats the term exactly that many times, whatever the draw. */
  lemma CountConstraintFixes(n: u32, lookup: Kind -> u32, roll: nat)
    ensures CountConstraint(NatToString(n as nat)).Some?
    ensures Resolve(CountConstraint(NatToString(n as nat)).value, lookup, roll) == n
  {
    SafeStoulOfRendering(n, 1);
    FixedBoundsResolveToBound(n, lookup, roll);
  }

  // dig_to_syntax

  /** A rule of the table as a value. */
  datatype RuleValue = RuleValue(name: string, scope: Scope, branches: seq<BranchValue>)

  /** The table as it stands. */
  function Snapshot(rules: seq<Rule>): (vs: seq<RuleValue>)
    reads rules
    ensures |vs| == |rules|
    ensures forall i :: 0 <= i < |rules| ==> vs[i] == RuleValue(rules[i].token.value, rules[i].scope, rules[i].branches)
  {
    if rules == [] then []
    else
      var last := rules[|rules| - 1];
      Snapshot(rules[..|rules| - 1]) + [RuleValue(last.token.value, last.scope, last.branches)]
  }

  /** The position of the first rule value with the name and a matching scope. */
  function Lookup(rules: seq<RuleValue>, name: string, scope: Scope): (r: Option<nat>)
    ensures r.Some? ==> r.value < |rules| && rules[r.value].name == name && ScopeMatches(rules[r.value].scope, scope)
    ensures r.Some? ==> forall j :: 0 <= j < r.value ==> !(rules[j].name == name && ScopeMatches(rules[j].scope, scope))
    ensures r.None? ==> forall j :: 0 <= j < |rules| ==> !(rules[j].name == name && ScopeMatches(rules[j].scope, scope))
  {
    if rules == [] then None
    else if rules[0].name == name && ScopeMatches(rules[0].scope, scope) then Some(0)
    else
      var rest := Lookup(rules[1..], name, scope);
      if rest.None? then None else Some(rest.value + 1)
  }

  /** Looking up a table value finds what `get_rule_pointer_if_exists` finds in the table. */
  lemma LookupSnapshot(rules: seq<Rule>, name: string, scope: Scope)
    ensures Lookup(Snapshot(rules), name, scope) == FirstMatching(rules, name, scope)
  {
    var vs := Snapshot(rules);
    forall j | 0 <= j < |rules|
      ensures (vs[j].name == name && ScopeMatches(vs[j].scope, scope)) == rules[j].Matches(name, scope)
    {
    }
    var f := FirstMatching(rules, name, scope);
    var l := Lookup(vs, name, scope);
    assert f.Some? ==> l.Some? && l.value <= f.value;
    assert l.Some? ==> f.Some? && f.value <= l.value;
  }

  /** The single term of a rule with exactly one branch holding exactly one term. */
  function SoleTerm(r: RuleValue): Option<Term>
  {
    if |r.branches| == 1 && |r.branches[0].terms| == 1 then Some(r.branches[0].terms[0]) else None
  }

  /** `Term::get_string`: a rule term's rule name, a syntax term's text. */
  function TermString(t: Term): string
  {
    if t.RuleTerm? then t.name else t.syntax
  }

  const BadVariantAccess := "bad_variant_access"
  const DigOutOfFuel := "out of fuel"

  /** `dig_to_syntax(name)` with `is_kind_of_rule` given as `isRuleKind`. The rule is looked
      up in every scope. When its only branch holds one term, a term of a rule kind is
      followed by its `get_string`, and any other term gives its syntax, which for a rule
      term is `bad_variant_access`, given here as an error. `fuel` bounds how many terms are
      followed (a chain that loops never ends in the source). */
  function Dig(isRuleKind: Kind -> bool, rules: seq<RuleValue>, name: string, fuel: nat): Result<string, string>
    decreases fuel
  {
    var i := Lookup(rules, name, AllScopes);
    if i.None? then Ok("")
    else
      var t := SoleTerm(rules[i.value]);
      if t.None? then Ok("")
      else if isRuleKind(t.value.kind) then
        if fuel == 0 then Err(DigOutOfFuel) else Dig(isRuleKind, rules, TermString(t.value), fuel - 1)
      else if t.value.SyntaxTerm? then Ok(t.value.syntax)
      else Err(BadVariantAccess)
  }

  /** `dig_to_syntax(name)` as written: `is_kind_of_rule` is false for every kind, so the
      code never follows a term and reads the sole term's syntax. */
  function DigToSyntaxAsWritten(rules: seq<RuleValue>, name: string): Result<string, string>
  {
    Dig(IsKindOfRuleAsWritten, rules, name, 0)
  }

  /** `dig_to_syntax(name)` with the corrected `is_kind_of_rule`. */
  function DigToSyntaxCorrected(rules: seq<RuleValue>, name: string, fuel: nat): Result<string, string>
  {
    Dig(IsKindOfRule, rules, name, fuel)
  }

  /** `dig_to_syntax(name)` as intended, by the term's variant rather than its kind: a sole
      rule term is followed to its rule. `fuel` bounds the depth; `None` means the chain did
      not end within it. */
  function DigToSyntax(rules: seq<RuleValue>, name: string, fuel: nat): Option<string>
    decreases fuel
  {
    var i := Lookup(rules, name, AllScopes);
    if i.None? then Some("")
    else
      var t := SoleTerm(rules[i.value]);
      if t.None? then Some("")
      else if t.value.SyntaxTerm? then Some(t.value.syntax)
      else if fuel == 0 then None
      else DigToSyntax(rules, t.value.name, fuel - 1)
  }

  /** Every version gives the empty text unless the rule exists and has one branch holding one
      term. */
  lemma DigEmptyUnlessSole(rules: seq<RuleValue>, name: string, fuel: nat)
    requires var i := Lookup(rules, name, AllScopes); i.None? || SoleTerm(rules[i.value]).None?
    ensures DigToSyntaxAsWritten(rules, name) == Ok("")
    ensures DigToSyntaxCorrected(rules, name, fuel) == Ok("")
    ensures DigToSyntax(rules, name, fuel) == Some("")
  {
  }

  /** All three agree on a rule whose sole term is syntax of a kind that is not a rule
      kind. */
  lemma DigAgreesOnSyntax(rules: seq<RuleValue>, name: string, fuel: nat)
    requires var i := Lookup(rules, name, AllScopes);
             i.Some? && SoleTerm(rules[i.value]).Some? && SoleTerm(rules[i.value]).value.SyntaxTerm?
             && !IsKindOfRule(SoleTerm(rules[i.value]).value.kind)
    ensures DigToSyntaxAsWritten(rules, name).Ok?
    ensures DigToSyntax(rules, name, fuel) == Some(DigToSyntaxAsWritten(rules, name).value)
    ensures DigToSyntaxCorrected(rules, name, fuel) == DigToSyntaxAsWritten(rules, name)
  {
  }

  /** Whatever non-empty text the dig returns is the sole syntax term of some rule of the
      table. */
  lemma {:induction false} DigFindsSoleSyntax(rules: seq<RuleValue>, name: string, fuel: nat)
    decreases fuel
    requires DigToSyntax(rules, name, fuel).Some? && DigToSyntax(rules, name, fuel).value != ""
    ensures exists i :: 0 <= i < |rules| && SoleTerm(rules[i]).Some?
                        && SoleTerm(rules[i]).value == SyntaxTerm(DigToSyntax(rules, name, fuel).value, SoleTerm(rules[i]).value.kind, SoleTerm(rules[i]).value.constraint)
  {
    var i := Lookup(rules, name, AllScopes).value;
    var t := SoleTerm(rules[i]).value;
    if t.SyntaxTerm? {
      assert SoleTerm(rules[i]).value == SyntaxTerm(DigToSyntax(rules, name, fuel).value, t.kind, t.constraint);
    } else {
      DigFindsSoleSyntax(rules, t.name, fuel - 1);
    }
  }

  /** A rule whose sole term is itself never ends its dig. */
  lemma {:induction false} DigSelfLoopNeverEnds(rules: seq<RuleValue>, name: string, fuel: nat)
    decreases fuel
    requires var i := Lookup(rules, name, AllScopes);
             i.Some? && SoleTerm(rules[i.value]).Some?
             && SoleTerm(rules[i.value]).value.RuleTerm? && SoleTerm(rules[i.value]).value.name == name
    ensures DigToSyntax(rules, name, fuel).None?
  {
    if fuel > 0 {
      DigSelfLoopNeverEnds(rules, name, fuel - 1);
    }
  }

  /** The table `a = b; b = "x";`: as written the dig of `a` fails on the rule term `b`;
      with the corrected `is_kind_of_rule` it gives "x". */
  lemma DigThroughRuleTerm()
    ensures var rules := [
              RuleValue("a", GlobScope, [BranchValue([RuleTerm("b", GlobScope, Kinds.Rule, NoConstraint())], false)]),
              RuleValue("b", GlobScope, [BranchValue([SyntaxTerm("x", Syntax, NoConstraint())], false)])];
            DigToSyntaxAsWritten(rules, "a") == Err(BadVariantAccess)
            && DigToSyntaxCorrected(rules, "a", 1) == Ok("x") && DigToSyntax(rules, "a", 1) == Some("x")
  {
    var rules := [
      RuleValue("a", GlobScope, [BranchValue([RuleTerm("b", GlobScope, Kinds.Rule, NoConstraint())], false)]),
      RuleValue("b", GlobScope, [BranchValue([SyntaxTerm("x", Syntax, NoConstraint())], false)])];
    assert Lookup(rules, "a", AllScopes) == Some(0);
    assert rules[1..][0].name == "b";
    assert Lookup(rules, "b", AllScopes) == Some(1);
  }

  /** The kinds `add_term_to_current_branch` gives the terms of a grammar read with the
      corrected `is_kind_of_rule`: a syntax term has kind `SYNTAX`, a rule term the rule kind
      of its token. */
  predicate WellKinded(t: Term)
  {
    (t.SyntaxTerm? ==> t.kind == Syntax) && (t.RuleTerm? ==> IsKindOfRule(t.kind))
  }

  ghost predicate SoleTermsWellKinded(rules: seq<RuleValue>)
  {
    forall i :: 0 <= i < |rules| && SoleTerm(rules[i]).Some? ==> WellKinded(SoleTerm(rules[i]).value)
  }

  /** On a well-kinded table the corrected dig is the dig by variant: it gives the same text,
      and runs out of fuel exactly when the dig by variant does. */
  lemma {:induction false} DigCorrectedFollowsRuleTerms(rules: seq<RuleValue>, name: string, fuel: nat)
    decreases fuel
    requires SoleTermsWellKinded(rules)
    ensures DigToSyntax(rules, name, fuel).Some? ==> DigToSyntaxCorrected(rules, name, fuel) == Ok(DigToSyntax(rules, name, fuel).value)
    ensures DigToSyntax(rules, name, fuel).None? ==> DigToSyntaxCorrected(rules, name, fuel) == Err(DigOutOfFuel)
  {
    var i := Lookup(rules, name, AllScopes);
    if i.Some? && SoleTerm(rules[i.value]).Some? {
      var t := SoleTerm(rules[i.value]).value;
      assert WellKinded(t);
      if t.RuleTerm? && fuel > 0 {
        DigCorrectedFollowsRuleTerms(rules, t.name, fuel - 1);
      }
    }
  }

  /** The test by which `build_grammar` takes a token as a term of the branch being built:
      its kind is a rule kind or `SYNTAX`. */
  predicate TakenAsTerm(isRuleKind: Kind -> bool, kind: Kind)
  {
    isRuleKind(kind) || kind == Syntax
  }

  /** As written, a rule name is never taken as a term. With the corrected `is_kind_of_rule`
      it is, and every kind that a later branch of `build_grammar` handles still reaches that
      branch, although each lies between the two markers of the enumeration. */
  lemma TermTestCorrected()
    ensures !TakenAsTerm(IsKindOfRuleAsWritten, Kinds.Rule) && !TakenAsTerm(IsKindOfRuleAsWritten, Circuit)
    ensures TakenAsTerm(IsKindOfRule, Kinds.Rule) && TakenAsTerm(IsKindOfRule, Circuit) && TakenAsTerm(IsKindOfRule, Syntax)
    ensures forall kind: Kind :: External <= kind <= RangleBracket ==>
              !TakenAsTerm(IsKindOfRule, kind) && SpecialRuleKindsTop < kind < SpecialRuleKindsBottom
  {
  }
}

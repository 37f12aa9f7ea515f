/** The kinds, keyword table and kind predicates of the regular-expression grammar lexer.
    Each keyword is a regular expression; an exact keyword must match a whole text, so its
    pattern is anchored. All patterns are joined into one alternation that splits a line into
    texts; the matching itself is outside the model. */
module RegexLex {
  import opened Wrappers
  import opened Text

  /** `Token_kind`, with the enumeration's ordinals. */
  type Kind = nat

  const Eof: Kind := 0
  const RuleKindsTop: Kind := 1
  const Rule: Kind := 2
  const H: Kind := 3
  const X: Kind := 4
  const Y: Kind := 5
  const Z: Kind := 6
  const Rz: Kind := 7
  const Rx: Kind := 8
  const Ry: Kind := 9
  const U1: Kind := 10
  const S: Kind := 11
  const Sdg: Kind := 12
  const T: Kind := 13
  const Tdg: Kind := 14
  const V: Kind := 15
  const Vdg: Kind := 16
  const Phasedxpowgate: Kind := 17
  const ProjectZ: Kind := 18
  const MeasureAndReset: Kind := 19
  const Measure: Kind := 20
  const Cx: Kind := 21
  const Cy: Kind := 22
  const Cz: Kind := 23
  const Ccx: Kind := 24
  const U2: Kind := 25
  const Cnot: Kind := 26
  const Ch: Kind := 27
  const Crz: Kind := 28
  const U3: Kind := 29
  const Cswap: Kind := 30
  const Toffoli: Kind := 31
  const U: Kind := 32
  const PhasedX: Kind := 33
  const Barrier: Kind := 34
  const SubroutineDefs: Kind := 35
  const Block: Kind := 36
  const Body: Kind := 37
  const QubitDefs: Kind := 38
  const QubitDefsDiscard: Kind := 39
  const BitDefs: Kind := 40
  const QubitDef: Kind := 41
  const QubitDefDiscard: Kind := 42
  const BitDef: Kind := 43
  const RegisterQubitDef: Kind := 44
  const RegisterQubitDefDiscard: Kind := 45
  const SingularQubitDef: Kind := 46
  const SingularQubitDefDiscard: Kind := 47
  const RegisterBitDef: Kind := 48
  const SingularBitDef: Kind := 49
  const CircuitName: Kind := 50
  const FloatList: Kind := 51
  const FloatLiteral: Kind := 52
  const MainCircuitName: Kind := 53
  const QubitDefName: Kind := 54
  const BitDefName: Kind := 55
  const Qubit: Kind := 56
  const Bit: Kind := 57
  const QubitOp: Kind := 58
  const GateOp: Kind := 59
  const SubroutineOp: Kind := 60
  const GateMame: Kind := 61
  const QubitList: Kind := 62
  const BitList: Kind := 63
  const QubitDefList: Kind := 64
  const QubitDefSize: Kind := 65
  const BitDefList: Kind := 66
  const BitDefSize: Kind := 67
  const SingularQubit: Kind := 68
  const RegisterQubit: Kind := 69
  const SingularBit: Kind := 70
  const RegisterBit: Kind := 71
  const QubitName: Kind := 72
  const BitName: Kind := 73
  const QubitIndex: Kind := 74
  const BitIndex: Kind := 75
  const Subroutine: Kind := 76
  const CircuitId: Kind := 77
  const Indent: Kind := 78
  const Dedent: Kind := 79
  const IfStmt: Kind := 80
  const ElseStmt: Kind := 81
  const ElifStmt: Kind := 82
  const Disjunction: Kind := 83
  const Conjunction: Kind := 84
  const Inversion: Kind := 85
  const Expression: Kind := 86
  const CompareOpBitwiseOrPair: Kind := 87
  const Number: Kind := 88
  const SubroutineOpArgs: Kind := 89
  const GateOpArgs: Kind := 90
  const SubroutineOpArg: Kind := 91
  const CompoundStmt: Kind := 92
  const CompoundStmts: Kind := 93
  const IndentationDepth: Kind := 94
  const RegisterResource: Kind := 95
  const RegisterResourceDef: Kind := 96
  const SingularResource: Kind := 97
  const SingularResourceDef: Kind := 98
  const ResourceDef: Kind := 99
  const RuleKindsBottom: Kind := 100
  const GrammarSyntaxTop: Kind := 101
  const Separator: Kind := 102
  const RuleStart: Kind := 103
  const RuleAppend: Kind := 104
  const RuleEnd: Kind := 105
  const Syntax: Kind := 106
  const Lparen: Kind := 107
  const Lbrack: Kind := 108
  const Lbrace: Kind := 109
  const Rparen: Kind := 110
  const Rbrack: Kind := 111
  const Rbrace: Kind := 112
  const ZeroOrMore: Kind := 113
  const OneOrMore: Kind := 114
  const Optional: Kind := 115
  const Arrow: Kind := 116
  const Internal: Kind := 117
  const External: Kind := 118
  const Owned: Kind := 119
  const Comment: Kind := 120
  const MultiCommentStart: Kind := 121
  const MultiCommentEnd: Kind := 122
  const GrammarSyntaxBottom: Kind := 123

  /** A keyword: the (possibly anchored) pattern, its kind and the text the token carries
      instead, if any. */
  datatype RegexMatcher = RegexMatcher(pattern: string, kind: Kind, value: Option<string>)

  /** The `Regex_matcher` constructors: an exact keyword is anchored at both ends. */
  function MakeMatcher(p: string, kind: Kind, value: Option<string>, matchExact: bool): (m: RegexMatcher)
    ensures m.kind == kind && m.value == value
    ensures matchExact ==> |m.pattern| == |p| + 2 && m.pattern[0] == '^' && m.pattern[|m.pattern| - 1] == '$'
                           && m.pattern[1..|m.pattern| - 1] == p
    ensures !matchExact ==> m.pattern == p
  {
    RegexMatcher(if matchExact then "^" + p + "$" else p, kind, value)
  }

  /** The keyword table, in order. */
  const TokenRules: seq<RegexMatcher> :=
    [
      MakeMatcher("subroutine_defs", SubroutineDefs, None, true),
      MakeMatcher("block|subroutine_block", Block, None, false),
      MakeMatcher("body|subroutine_body", Body, None, false),
      MakeMatcher("qubit_defs", QubitDefs, None, true),
      MakeMatcher("qubit_defs_discard", QubitDefsDiscard, None, true),
      MakeMatcher("bit_defs", BitDefs, None, true),
      MakeMatcher("qubit_def", QubitDef, None, true),
      MakeMatcher("qubit_def_discard", QubitDefDiscard, None, true),
      MakeMatcher("bit_def", BitDef, None, true),
      MakeMatcher("register_qubit_def", RegisterQubitDef, None, true),
      MakeMatcher("singular_qubit_def", SingularQubitDef, None, true),
      MakeMatcher("register_qubit_def_discard", RegisterQubitDefDiscard, None, true),
      MakeMatcher("singular_qubit_def_discard", SingularQubitDefDiscard, None, true),
      MakeMatcher("register_bit_def", RegisterBitDef, None, true),
      MakeMatcher("singular_bit_def", SingularBitDef, None, true),
      MakeMatcher("circuit_name", CircuitName, None, true),
      MakeMatcher("float_list", FloatList, None, true),
      MakeMatcher("float_literal", FloatLiteral, None, true),
      MakeMatcher("main_circuit_name", MainCircuitName, None, true),
      MakeMatcher("qubit_def_name", QubitDefName, None, true),
      MakeMatcher("bit_def_name", BitDefName, None, true),
      MakeMatcher("qubit", Qubit, None, true),
      MakeMatcher("bit", Bit, None, true),
      MakeMatcher("qubit_op", QubitOp, None, true),
      MakeMatcher("gate_op", GateOp, None, true),
      MakeMatcher("subroutine_op", SubroutineOp, None, true),
      MakeMatcher("gate_name", GateMame, None, true),
      MakeMatcher("qubit_list", QubitList, None, true),
      MakeMatcher("bit_list", BitList, None, true),
      MakeMatcher("qubit_def_list", QubitDefList, None, true),
      MakeMatcher("qubit_def_size", QubitDefSize, None, true),
      MakeMatcher("bit_def_list", BitDefList, None, true),
      MakeMatcher("bit_def_size", BitDefSize, None, true),
      MakeMatcher("singular_qubit", SingularQubit, None, true),
      MakeMatcher("register_qubit", RegisterQubit, None, true),
      MakeMatcher("singular_bit", SingularBit, None, true),
      MakeMatcher("register_bit", RegisterBit, None, true),
      MakeMatcher("qubit_name", QubitName, None, true),
      MakeMatcher("bit_name", BitName, None, true),
      MakeMatcher("qubit_index", QubitIndex, None, true),
      MakeMatcher("bit_index", BitIndex, None, true),
      MakeMatcher("subroutine", Subroutine, None, true),
      MakeMatcher("circuit_id", CircuitId, None, true),
      MakeMatcher("INDENT", Indent, None, true),
      MakeMatcher("DEDENT", Dedent, None, true),
      MakeMatcher("if_stmt", IfStmt, None, true),
      MakeMatcher("else_stmt", ElseStmt, None, true),
      MakeMatcher("elif_stmt", ElifStmt, None, true),
      MakeMatcher("disjunction", Disjunction, None, true),
      MakeMatcher("conjunction", Conjunction, None, true),
      MakeMatcher("inversion", Inversion, None, true),
      MakeMatcher("expression", Expression, None, true),
      MakeMatcher("compare_op_bitwise_or_pair", CompareOpBitwiseOrPair, None, true),
      MakeMatcher("NUMBER", Number, None, true),
      MakeMatcher("subroutine_op_args", SubroutineOpArgs, None, true),
      MakeMatcher("gate_op_args", GateOpArgs, None, true),
      MakeMatcher("subroutine_op_arg", SubroutineOpArg, None, true),
      MakeMatcher("compound_stmt", CompoundStmt, None, true),
      MakeMatcher("compound_stmts", CompoundStmts, None, true),
      MakeMatcher("indentation_depth", IndentationDepth, None, true),
      MakeMatcher("h", H, None, true),
      MakeMatcher("x", X, None, true),
      MakeMatcher("y", Y, None, true),
      MakeMatcher("z", Z, None, true),
      MakeMatcher("rz", Rz, None, true),
      MakeMatcher("rx", Rx, None, true),
      MakeMatcher("ry", Ry, None, true),
      MakeMatcher("u1", U1, None, true),
      MakeMatcher("s", S, None, true),
      MakeMatcher("sdg", Sdg, None, true),
      MakeMatcher("t", T, None, true),
      MakeMatcher("tdg", Tdg, None, true),
      MakeMatcher("v", V, None, true),
      MakeMatcher("vdg", Vdg, None, true),
      MakeMatcher("phased_x", PhasedX, None, true),
      MakeMatcher("project_z", ProjectZ, None, true),
      MakeMatcher("measure_and_reset", MeasureAndReset, None, true),
      MakeMatcher("measure", Measure, None, true),
      MakeMatcher("cx", Cx, None, true),
      MakeMatcher("cy", Cy, None, true),
      MakeMatcher("cz", Cz, None, true),
      MakeMatcher("ccx", Ccx, None, true),
      MakeMatcher("u2", U2, None, true),
      MakeMatcher("cnot", Cnot, None, true),
      MakeMatcher("ch", Ch, None, true),
      MakeMatcher("crz", Crz, None, true),
      MakeMatcher("u3", U3, None, true),
      MakeMatcher("cswap", Cswap, None, true),
      MakeMatcher("toffoli", Toffoli, None, true),
      MakeMatcher("u", U, None, true),
      MakeMatcher("barrier", Barrier, None, true),
      MakeMatcher("LPAREN", Syntax, Some("("), true),
      MakeMatcher("RPAREN", Syntax, Some(")"), true),
      MakeMatcher("LBRACK", Syntax, Some("["), true),
      MakeMatcher("RBRACK", Syntax, Some("]"), true),
      MakeMatcher("LBRACE", Syntax, Some("{"), true),
      MakeMatcher("RBRACE", Syntax, Some("}"), true),
      MakeMatcher("COMMA", Syntax, Some(","), true),
      MakeMatcher("SPACE", Syntax, Some(" "), true),
      MakeMatcher("DOT", Syntax, Some("."), true),
      MakeMatcher("SINGLE_QUOTE", Syntax, Some("'"), true),
      MakeMatcher("DOUBLE_QUOTE", Syntax, Some("\""), true),
      MakeMatcher("EQUALS", Syntax, Some("="), true),
      MakeMatcher("NEWLINE", Syntax, Some("\n"), true),
      MakeMatcher("\\\".*?\\\"|\\'.*?\\'", Syntax, None, false),
      MakeMatcher("EXTERNAL(::)?", External, None, false),
      MakeMatcher("INTERNAL(::)?", Internal, None, false),
      MakeMatcher("OWNED(::)?", Owned, None, false),
      MakeMatcher("[a-zA-Z_]+", Rule, None, false),
      MakeMatcher("\\(\\*", MultiCommentStart, None, false),
      MakeMatcher("\\*\\)", MultiCommentEnd, None, false),
      MakeMatcher("=|:", RuleStart, None, false),
      MakeMatcher("\\+=", RuleAppend, None, false),
      MakeMatcher("\\|", Separator, None, false),
      MakeMatcher(";", RuleEnd, None, false),
      MakeMatcher("\\(", Lparen, None, false),
      MakeMatcher("\\)", Rparen, None, false),
      MakeMatcher("\\[", Lbrack, None, false),
      MakeMatcher("\\]", Rbrack, None, false),
      MakeMatcher("\\{", Lbrace, None, false),
      MakeMatcher("\\}", Rbrace, None, false),
      MakeMatcher("\\*", ZeroOrMore, None, false),
      MakeMatcher("\\?", Optional, None, false),
      MakeMatcher("\\+", OneOrMore, None, false),
      MakeMatcher("\\-\\>", Arrow, None, false),
      MakeMatcher("#", Comment, None, false)
    ]

  predicate IsWildcard(kind: Kind)
  {
    kind == Optional || kind == ZeroOrMore || kind == OneOrMore
  }

  /** The kinds strictly between the two rule-kind markers. */
  predicate IsKindOfRule(kind: Kind)
  {
    RuleKindsTop < kind && RuleKindsBottom > kind
  }

  /** The kinds the grammar parser passes over without building anything. */
  predicate IsQuiet(kind: Kind)
  {
    kind == MultiCommentStart || kind == MultiCommentEnd || kind == Lbrack || kind == Rbrack
    || kind == Lbrace || kind == Comment || kind == Arrow
  }

  /** The wildcards are exactly the three repetition marks, none of them a rule kind; the
      rule kinds run from `RULE` to `RESOURCE_DEF`; exactly seven kinds are quiet. */
  lemma KindClasses()
    ensures forall kind: Kind :: IsWildcard(kind) <==> kind in {ZeroOrMore, OneOrMore, Optional}
    ensures forall kind: Kind :: IsWildcard(kind) ==> !IsKindOfRule(kind)
    ensures forall kind: Kind :: IsKindOfRule(kind) <==> Rule <= kind <= ResourceDef
    ensures forall kind: Kind :: IsQuiet(kind) <==> kind in QuietKinds()
    ensures |QuietKinds()| == 7
  {
  }

  function QuietKinds(): set<Kind>
  {
    {MultiCommentStart, MultiCommentEnd, Lbrack, Rbrack, Lbrace, Comment, Arrow}
  }

  function Patterns(rules: seq<RegexMatcher>): (ps: seq<string>)
    ensures |ps| == |rules| && forall k :: 0 <= k < |rules| ==> ps[k] == rules[k].pattern
  {
    if rules == [] then [] else Patterns(rules[..|rules| - 1]) + [rules[|rules| - 1].pattern]
  }

  /** The alternation of all patterns, in table order. */
  function FullRegexOf(rules: seq<RegexMatcher>): string
  {
    "(" + Join(Patterns(rules), "|") + ")"
  }

  /** `FULL_REGEX`. */
  function FullRegex(): string
  {
    FullRegexOf(TokenRules)
  }

  /** The initialiser's loop: each pattern, with a `|` after every one but the last,
      between parentheses. */
  method BuildFullRegex(rules: seq<RegexMatcher>) returns (regex: string)
    ensures regex == FullRegexOf(rules)
  {
    regex := "(";
    var i := 0;
    while i < |rules|
      invariant 0 <= i <= |rules|
      invariant regex == PartialRegex(rules, i)
    {
      FullRegexStep(rules, i);
      regex := regex + rules[i].pattern;
      if i + 1 < |rules| {
        regex := regex + "|";
      }
      i := i + 1;
    }
    assert rules[..|rules|] == rules;
    regex := regex + ")";
  }

  /** The text after `i` rounds of the loop: the open parenthesis, the first `i` patterns
      joined, and the `|` that follows each of them but the last pattern of the table. */
  function PartialRegex(rules: seq<RegexMatcher>, i: nat): string
    requires i <= |rules|
  {
    "(" + Join(Patterns(rules[..i]), "|") + (if 0 < i < |rules| then "|" else "")
  }

  lemma FullRegexStep(rules: seq<RegexMatcher>, i: nat)
    requires i < |rules|
    ensures i + 1 < |rules| ==> PartialRegex(rules, i) + rules[i].pattern + "|" == PartialRegex(rules, i + 1)
    ensures i + 1 == |rules| ==> PartialRegex(rules, i) + rules[i].pattern == PartialRegex(rules, i + 1)
  {
    var p := rules[i].pattern;
    assert rules[..i + 1] == rules[..i] + [rules[i]];
    assert Patterns(rules[..i + 1]) == Patterns(rules[..i]) + [p];
    var before := Join(Patterns(rules[..i]), "|");
    var after := Join(Patterns(rules[..i + 1]), "|");
    if i == 0 {
      assert Patterns(rules[..1]) == [p];
      assert after == p;
      assert PartialRegex(rules, i) == "(";
    } else {
      JoinSnoc(Patterns(rules[..i]), "|", p);
      assert after == before + "|" + p;
      assert PartialRegex(rules, i) == "(" + before + "|";
    }
  }

  /** The joined text holds every piece, one separator between neighbours: its length is
      the pieces' lengths plus one per separator. */
  lemma {:induction false} JoinLength(ps: seq<string>, sep: string)
    ensures |Join(ps, sep)| == TotalLength(ps) + (if ps == [] then 0 else (|ps| - 1) * |sep|)
  {
    if |ps| > 1 {
      JoinLength(ps[1..], sep);
      TotalLengthCons(ps);
    } else if |ps| == 1 {
      TotalLengthCons(ps);
      assert TotalLength(ps[1..]) == 0;
    }
  }

  function TotalLength(ps: seq<string>): nat
  {
    if ps == [] then 0 else TotalLength(ps[..|ps| - 1]) + |ps[|ps| - 1]|
  }

  lemma {:induction false} TotalLengthCons(ps: seq<string>)
    requires ps != []
    ensures TotalLength(ps) == |ps[0]| + TotalLength(ps[1..])
  {
    if |ps| > 1 {
      TotalLengthCons(ps[..|ps| - 1]);
      assert ps[..|ps| - 1][1..] == ps[1..][..|ps[1..]| - 1];
    } else {
      assert ps[1..] == [];
    }
  }

  /** The alternation is the patterns, the `|` between them and the two parentheses,
      nothing more, and every pattern occurs in it. */
  lemma FullRegexHoldsEveryPattern(rules: seq<RegexMatcher>)
    ensures var r := FullRegexOf(rules);
            r[0] == '(' && r[|r| - 1] == ')'
            && |r| == 2 + TotalLength(Patterns(rules)) + (if rules == [] then 0 else |rules| - 1)
            && forall k :: 0 <= k < |rules| ==> IsInfix(rules[k].pattern, r)
  {
    var ps := Patterns(rules);
    var j := Join(ps, "|");
    JoinLength(ps, "|");
    var r := "(" + j + ")";
    assert r == FullRegexOf(rules);
    assert r[0] == '(' && r[|r| - 1] == ')' && |r| == |j| + 2;
    assert |ps| == |rules|;
    forall k | 0 <= k < |rules|
      ensures IsInfix(rules[k].pattern, r)
    {
      PatternInFullRegex(rules, k);
    }
  }

  lemma PatternInFullRegex(rules: seq<RegexMatcher>, k: nat)
    requires k < |rules|
    ensures IsInfix(rules[k].pattern, FullRegexOf(rules))
  {
    var ps := Patterns(rules);
    var j := Join(ps, "|");
    var at := JoinHolds(ps, "|", k);
    var r := "(" + j + ")";
    assert r[1 + at..1 + at + |ps[k]|] == j[at..at + |ps[k]|];
    assert InfixAt(rules[k].pattern, r, 1 + at);
  }

  /** Each piece occurs in the joined text. */
  lemma {:induction false} JoinHolds(ps: seq<string>, sep: string, k: nat) returns (at: nat)
    requires k < |ps|
    ensures InfixAt(ps[k], Join(ps, sep), at)
  {
    if |ps| == 1 {
      at := 0;
    } else if k == 0 {
      at := 0;
      assert Join(ps, sep)[..|ps[0]|] == ps[0];
    } else {
      var rest := JoinHolds(ps[1..], sep, k - 1);
      var j := Join(ps, sep);
      var off := |ps[0]| + |sep|;
      at := off + rest;
      assert j == ps[0] + sep + Join(ps[1..], sep);
      assert j[at..at + |ps[k]|] == Join(ps[1..], sep)[rest..rest + |ps[k]|];
    }
  }
}

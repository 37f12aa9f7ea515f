/** The grammar lexer: it reads a grammar file line by line, splits each line into matched
    texts with one regular expression, and classifies each text into a token. The regular
    expression matching is outside the model: each line is given as the sequence of texts
    the expression matched in it. Comment state carries over from line to line, and the
    token list always ends with the `_EOF` token. */
module Lexer {
  import opened Wrappers
  import opened Text
  import opened Kinds
  import Utils

  datatype Token = Token(value: string, kind: Kind)

  /** A keyword of the grammar language: the exact text, its kind and the text the token
      carries instead of the keyword, if any. */
  datatype TokenMatcher = TokenMatcher(pattern: string, kind: Kind, replacement: Option<string>)

  /** The keyword table, in lookup order. */
  const TokenRules: seq<TokenMatcher> :=
    Rules0 + Rules1 + Rules2 + Rules3 + Rules4 + Rules5 + Rules6 + Rules7

  const Rules0: seq<TokenMatcher> :=
    [
      TokenMatcher("subroutine_defs", SubroutineDefs, None),
      TokenMatcher("circuit", Circuit, None),
      TokenMatcher("subroutine_circuit", Circuit, None),
      TokenMatcher("body", Body, None),
      TokenMatcher("subroutine_body", Body, None),
      TokenMatcher("qubit_defs", QubitDefs, None),
      TokenMatcher("qubit_defs_discard", QubitDefsDiscard, None),
      TokenMatcher("bit_defs", BitDefs, None),
      TokenMatcher("qubit_def", QubitDef, None),
      TokenMatcher("qubit_def_discard", QubitDefDiscard, None),
      TokenMatcher("bit_def", BitDef, None),
      TokenMatcher("register_qubit_def", RegisterQubitDef, None),
      TokenMatcher("singular_qubit_def", SingularQubitDef, None),
      TokenMatcher("register_qubit_def_discard", RegisterQubitDefDiscard, None),
      TokenMatcher("singular_qubit_def_discard", SingularQubitDefDiscard, None),
      TokenMatcher("register_bit_def", RegisterBitDef, None)
    ]

  const Rules1: seq<TokenMatcher> :=
    [
      TokenMatcher("singular_bit_def", SingularBitDef, None),
      TokenMatcher("circuit_name", CircuitName, None),
      TokenMatcher("float_list", FloatList, None),
      TokenMatcher("float_literal", FloatLiteral, None),
      TokenMatcher("main_circuit_name", MainCircuitName, None),
      TokenMatcher("qubit_def_name", QubitDefName, None),
      TokenMatcher("bit_def_name", BitDefName, None),
      TokenMatcher("qubit", Qubit, None),
      TokenMatcher("bit", Bit, None),
      TokenMatcher("qubit_op", QubitOp, None),
      TokenMatcher("gate_op", GateOp, None),
      TokenMatcher("subroutine_op", SubroutineOp, None),
      TokenMatcher("gate_name", GateName, None),
      TokenMatcher("qubit_list", QubitList, None),
      TokenMatcher("bit_list", BitList, None),
      TokenMatcher("qubit_def_list", QubitDefList, None)
    ]

  const Rules2: seq<TokenMatcher> :=
    [
      TokenMatcher("qubit_def_size", QubitDefSize, None),
      TokenMatcher("bit_def_list", BitDefList, None),
      TokenMatcher("bit_def_size", BitDefSize, None),
      TokenMatcher("singular_qubit", SingularQubit, None),
      TokenMatcher("register_qubit", RegisterQubit, None),
      TokenMatcher("singular_bit", SingularBit, None),
      TokenMatcher("register_bit", RegisterBit, None),
      TokenMatcher("qubit_name", QubitName, None),
      TokenMatcher("bit_name", BitName, None),
      TokenMatcher("qubit_index", QubitIndex, None),
      TokenMatcher("bit_index", BitIndex, None),
      TokenMatcher("subroutine", Subroutine, None),
      TokenMatcher("circuit_id", CircuitId, None),
      TokenMatcher("INDENT", Indent, None),
      TokenMatcher("DEDENT", Dedent, None),
      TokenMatcher("NUMBER", Number, None)
    ]

  const Rules3: seq<TokenMatcher> :=
    [
      TokenMatcher("if_stmt", IfStmt, None),
      TokenMatcher("else_stmt", ElseStmt, None),
      TokenMatcher("elif_stmt", ElifStmt, None),
      TokenMatcher("disjunction", Disjunction, None),
      TokenMatcher("conjunction", Conjunction, None),
      TokenMatcher("inversion", Inversion, None),
      TokenMatcher("expression", Expression, None),
      TokenMatcher("compare_op_bitwise_or_pair", CompareOpBitwiseOrPair, None),
      TokenMatcher("subroutine_op_args", SubroutineOpArgs, None),
      TokenMatcher("gate_op_args", GateOpArgs, None),
      TokenMatcher("subroutine_op_arg", SubroutineOpArg, None),
      TokenMatcher("compound_stmt", CompoundStmt, None),
      TokenMatcher("compound_stmts", CompoundStmts, None),
      TokenMatcher("indentation_depth", IndentationDepth, None),
      TokenMatcher("h", H, None),
      TokenMatcher("x", X, None)
    ]

  const Rules4: seq<TokenMatcher> :=
    [
      TokenMatcher("y", Y, None),
      TokenMatcher("z", Z, None),
      TokenMatcher("rz", Rz, None),
      TokenMatcher("rx", Rx, None),
      TokenMatcher("ry", Ry, None),
      TokenMatcher("u1", U1, None),
      TokenMatcher("s", S, None),
      TokenMatcher("sdg", Sdg, None),
      TokenMatcher("t", T, None),
      TokenMatcher("tdg", Tdg, None),
      TokenMatcher("v", V, None),
      TokenMatcher("vdg", Vdg, None),
      TokenMatcher("phased_x", PhasedX, None),
      TokenMatcher("project_z", ProjectZ, None),
      TokenMatcher("measure_and_reset", MeasureAndReset, None),
      TokenMatcher("measure", Measure, None)
    ]

  const Rules5: seq<TokenMatcher> :=
    [
      TokenMatcher("cx", Cx, None),
      TokenMatcher("cy", Cy, None),
      TokenMatcher("cz", Cz, None),
      TokenMatcher("ccx", Ccx, None),
      TokenMatcher("u2", U2, None),
      TokenMatcher("cnot", Cnot, None),
      TokenMatcher("ch", Ch, None),
      TokenMatcher("crz", Crz, None),
      TokenMatcher("u3", U3, None),
      TokenMatcher("cswap", Cswap, None),
      TokenMatcher("toffoli", Toffoli, None),
      TokenMatcher("u", U, None),
      TokenMatcher("barrier", Barrier, None),
      TokenMatcher("LPAREN", Syntax, Some("(")),
      TokenMatcher("RPAREN", Syntax, Some(")")),
      TokenMatcher("LBRACK", Syntax, Some("["))
    ]

  const Rules6: seq<TokenMatcher> :=
    [
      TokenMatcher("RBRACK", Syntax, Some("]")),
      TokenMatcher("LBRACE", Syntax, Some("{")),
      TokenMatcher("RBRACE", Syntax, Some("}")),
      TokenMatcher("COMMA", Syntax, Some(",")),
      TokenMatcher("SPACE", Syntax, Some(" ")),
      TokenMatcher("DOT", Syntax, Some(".")),
      TokenMatcher("SINGLE_QUOTE", Syntax, Some("'")),
      TokenMatcher("DOUBLE_QUOTE", Syntax, Some("\"")),
      TokenMatcher("EQUALS", Syntax, Some("=")),
      TokenMatcher("NEWLINE", Syntax, Some("\n")),
      TokenMatcher("EXTERNAL", External, None),
      TokenMatcher("INTERNAL", Internal, None),
      TokenMatcher("OWNED", Owned, None),
      TokenMatcher("GLOBAL", Global, None),
      TokenMatcher("::", ScopeRes, None),
      TokenMatcher("->", Arrow, None)
    ]

  const Rules7: seq<TokenMatcher> :=
    [
      TokenMatcher("+=", RuleAppend, None),
      TokenMatcher("=", RuleStart, None),
      TokenMatcher(":", RuleStart, None),
      TokenMatcher("|", Separator, None),
      TokenMatcher(";", RuleEnd, None),
      TokenMatcher("(", Lparen, None),
      TokenMatcher(")", Rparen, None),
      TokenMatcher("[", Lbrack, None),
      TokenMatcher("]", Rbrack, None),
      TokenMatcher("{", Lbrace, None),
      TokenMatcher("}", Rbrace, None),
      TokenMatcher("*", ZeroOrMore, None),
      TokenMatcher("?", Optional, None),
      TokenMatcher("+", OneOrMore, None),
      TokenMatcher("<", LangleBracket, None),
      TokenMatcher(">", RangleBracket, None)
    ]

  /** No keyword in `rules` has the kind of the end-of-input token. */
  predicate NoEofKeyword(rules: seq<TokenMatcher>)
  {
    forall m :: m in rules ==> m.kind != Eof
  }

  lemma NoEofKeyword0()
    ensures NoEofKeyword(Rules0)
  {
  }

  lemma NoEofKeyword1()
    ensures NoEofKeyword(Rules1)
  {
  }

  lemma NoEofKeyword2()
    ensures NoEofKeyword(Rules2)
  {
  }

  lemma NoEofKeyword3()
    ensures NoEofKeyword(Rules3)
  {
  }

  lemma NoEofKeyword4()
    ensures NoEofKeyword(Rules4)
  {
  }

  lemma NoEofKeyword5()
    ensures NoEofKeyword(Rules5)
  {
  }

  lemma NoEofKeyword6()
    ensures NoEofKeyword(Rules6)
  {
  }

  lemma NoEofKeyword7()
    ensures NoEofKeyword(Rules7)
  {
  }

  /** No keyword of the table has the kind of the end-of-input token. */
  lemma NoKeywordIsEof()
    ensures NoEofKeyword(TokenRules)
  {
    NoEofKeyword0();
    NoEofKeyword1();
    NoEofKeyword2();
    NoEofKeyword3();
    NoEofKeyword4();
    NoEofKeyword5();
    NoEofKeyword6();
    NoEofKeyword7();
    assert forall a, b :: NoEofKeyword(a) && NoEofKeyword(b) ==> NoEofKeyword(a + b);
  }

  /** `remove_outer_quotes`: one pair of matching outer quotes (`"` or `'`) is removed, and
      only from a text longer than two characters. */
  function RemoveOuterQuotes(token: string): string
  {
    if |token| > 2 && ((token[0] == '"' && token[|token| - 1] == '"') || (token[0] == '\'' && token[|token| - 1] == '\''))
    then token[1..|token| - 1]
    else token
  }

  /** A non-empty text in either kind of quotes comes back without them, and nothing else is
      removed. */
  lemma UnquoteQuoted(s: string, q: char)
    requires |s| >= 1 && (q == '"' || q == '\'')
    ensures RemoveOuterQuotes([q] + s + [q]) == s
  {
    var t := [q] + s + [q];
    assert t[1..|t| - 1] == s;
  }

  /** Texts of at most two characters, and texts not opened and closed by the same quote, are
      kept as they are; so `""` and `''` stay quoted. */
  lemma QuotesKept(token: string)
    requires |token| <= 2 || !(token[0] == token[|token| - 1] && (token[0] == '"' || token[0] == '\''))
    ensures RemoveOuterQuotes(token) == token
  {
  }

  /** The first character as `text[0]` reads it: the terminating NUL of an empty string. */
  function Head(text: string): char
  {
    if text == [] then '\0' else text[0]
  }

  /** `isalpha` in the C locale. */
  predicate IsAlpha(c: char)
  {
    'a' <= c <= 'z' || 'A' <= c <= 'Z'
  }

  /** The position of the first keyword whose pattern is the text, if any. */
  function FirstMatch(text: string, rules: seq<TokenMatcher>): (r: Option<nat>)
    ensures r.Some? ==> r.value < |rules| && rules[r.value].pattern == text
    ensures r.Some? ==> forall j :: 0 <= j < r.value ==> rules[j].pattern != text
    ensures r.None? ==> forall j :: 0 <= j < |rules| ==> rules[j].pattern != text
  {
    if rules == [] then None
    else if rules[0].pattern == text then Some(0)
    else
      var rest := FirstMatch(text, rules[1..]);
      if rest.None? then None else Some(rest.value + 1)
  }

  /** The token of a text that is neither a comment nor whitespace: the first keyword with
      that exact text, carrying its replacement if it has one; otherwise a rule name when the
      text opens with a letter or `_`, a number as syntax when it opens with a digit, and any
      other text as syntax without its outer quotes. */
  function Classify(text: string): Token
  {
    ClassifyWith(TokenRules, text)
  }

  /** The same classification against any keyword table. */
  function ClassifyWith(rules: seq<TokenMatcher>, text: string): Token
  {
    var i := FirstMatch(text, rules);
    if i.Some? then
      var m := rules[i.value];
      Token(if m.replacement.Some? then m.replacement.value else text, m.kind)
    else if IsAlpha(Head(text)) || Head(text) == '_' then Token(text, Rule)
    else if IsDigit(Head(text)) then Token(text, Syntax)
    else Token(RemoveOuterQuotes(text), Syntax)
  }

  /** The tokens so far and whether a `(*` comment is open. */
  datatype LexState = LexState(tokens: seq<Token>, inComment: bool)

  /** One matched text: `(*` opens a comment, `*)` closes it, texts inside a comment, texts
      opening with `#` and texts opening with whitespace are skipped, every other text adds
      its token. */
  function Step(st: LexState, text: string): LexState
  {
    if text == "(*" then st.(inComment := true)
    else if text == "*)" then st.(inComment := false)
    else if st.inComment || Head(text) == '#' || Utils.IsCSpace(Head(text)) then st
    else st.(tokens := st.tokens + [Classify(text)])
  }

  /** The state after the texts, in order. */
  function Scan(st: LexState, texts: seq<string>): LexState
  {
    if texts == [] then st else Step(Scan(st, texts[..|texts| - 1]), texts[|texts| - 1])
  }

  /** All matched texts of the lines, line after line. */
  function Flatten(lines: seq<seq<string>>): seq<string>
  {
    if lines == [] then [] else Flatten(lines[..|lines| - 1]) + lines[|lines| - 1]
  }

  /** The token list `lex` produces. */
  function LexTokens(lines: seq<seq<string>>): seq<Token>
  {
    Scan(LexState([], false), Flatten(lines)).tokens + [Token("", Eof)]
  }

  lemma {:induction false} ScanAppend(st: LexState, a: seq<string>, b: seq<string>)
    ensures Scan(st, a + b) == Scan(Scan(st, a), b)
  {
    if b == [] {
      assert a + b == a;
    } else {
      assert (a + b)[..|a + b| - 1] == a + b[..|b| - 1];
      ScanAppend(st, a, b[..|b| - 1]);
    }
  }

  /** A text never produces a token of the end-of-input kind. */
  lemma ClassifyNotEof(text: string)
    ensures Classify(text).kind != Eof
  {
    NoKeywordIsEof();
    var i := FirstMatch(text, TokenRules);
    if i.Some? {
      assert TokenRules[i.value] in TokenRules;
    }
  }

  /** Scanning only appends, and appends no end-of-input token. */
  lemma {:induction false} ScanExtends(st: LexState, texts: seq<string>)
    ensures var r := Scan(st, texts);
            |st.tokens| <= |r.tokens| <= |st.tokens| + |texts|
            && r.tokens[..|st.tokens|] == st.tokens
            && forall k :: |st.tokens| <= k < |r.tokens| ==> r.tokens[k].kind != Eof
  {
    if texts != [] {
      var prev := Scan(st, texts[..|texts| - 1]);
      ScanExtends(st, texts[..|texts| - 1]);
      ClassifyNotEof(texts[|texts| - 1]);
      assert prev.tokens[..|st.tokens|] == st.tokens;
    }
  }

  /** The token list ends with the end-of-input token, has no other one, and has at most one
      token per matched text besides it. */
  lemma LexEndsWithOneEof(lines: seq<seq<string>>)
    ensures var ts := LexTokens(lines);
            |ts| >= 1 && ts[|ts| - 1] == Token("", Eof)
            && (forall k :: 0 <= k < |ts| - 1 ==> ts[k].kind != Eof)
            && |ts| <= |Flatten(lines)| + 1
  {
    ScanExtends(LexState([], false), Flatten(lines));
  }

  /** Inside an open comment, texts up to the closing `*)` produce no token, whatever they
      are; the comment is still open afterwards. */
  lemma {:induction false} CommentSuppresses(st: LexState, texts: seq<string>)
    requires st.inComment && "*)" !in texts
    ensures Scan(st, texts) == st
  {
    if texts != [] {
      assert texts[|texts| - 1] in texts;
      var init := texts[..|texts| - 1];
      assert forall t :: t in init ==> t in texts;
      CommentSuppresses(st, init);
    }
  }

  /** Comment markers, `#` comments and whitespace add no token. */
  lemma SkippedTexts(st: LexState, text: string)
    requires text == "(*" || text == "*)" || Head(text) == '#' || Utils.IsCSpace(Head(text))
    ensures Step(st, text).tokens == st.tokens
  {
  }

  /** A keyword text outside a comment adds exactly its table token. */
  lemma KeywordToken(st: LexState, text: string, i: nat)
    requires !st.inComment && text != "(*" && text != "*)" && Head(text) != '#' && !Utils.IsCSpace(Head(text))
    requires i < |TokenRules| && TokenRules[i].pattern == text
    requires forall j :: 0 <= j < i ==> TokenRules[j].pattern != text
    ensures var m := TokenRules[i];
            Step(st, text).tokens == st.tokens + [Token(if m.replacement.Some? then m.replacement.value else text, m.kind)]
  {
    var r := FirstMatch(text, TokenRules);
    assert r.Some? && r.value == i;
  }

  /** A text that is no keyword is a rule name exactly when it opens with a letter or `_`;
      otherwise it is syntax, unquoted unless it opens with a digit. */
  lemma GenericClassification(text: string)
    requires forall j :: 0 <= j < |TokenRules| ==> TokenRules[j].pattern != text
    ensures Classify(text).kind == Rule <==> IsAlpha(Head(text)) || Head(text) == '_'
    ensures Classify(text).kind == Rule || Classify(text).kind == Syntax
    ensures IsDigit(Head(text)) ==> Classify(text).value == text
    ensures !IsAlpha(Head(text)) && Head(text) != '_' && !IsDigit(Head(text)) ==> Classify(text).value == RemoveOuterQuotes(text)
  {
  }

  /** The lexer object: its result holds the token list once `lex` has run. */
  class Lexer {
    var result: Option<seq<Token>>

    /** `Lexer(filename)`: the lines of the file are given; the constructor lexes them. */
    constructor (lines: seq<seq<string>>)
      ensures result == Some(LexTokens(lines))
    {
      result := None;
      new;
      Lex(lines);
    }

    /** `lex`: the loop over lines and matched texts with the comment flag. */
    method Lex(lines: seq<seq<string>>)
      modifies this
      ensures result == Some(LexTokens(lines))
    {
      var tokens: seq<Token> := [];
      var inMultilineComment := false;
      var i := 0;
      while i < |lines|
        invariant 0 <= i <= |lines|
        invariant LexState(tokens, inMultilineComment) == Scan(LexState([], false), Flatten(lines[..i]))
      {
        LinesStep(lines, i, LexState(tokens, inMultilineComment));
        tokens, inMultilineComment := LexLine(tokens, inMultilineComment, lines[i]);
        i := i + 1;
      }
      assert lines[..|lines|] == lines;
      tokens := tokens + [Token("", Eof)];
      result := Some(tokens);
    }
  }

  /** `Step` branch by branch, as the loop body takes the branches. */
  lemma StepCases(st: LexState, text: string)
    ensures text == "(*" ==> Step(st, text) == LexState(st.tokens, true)
    ensures text != "(*" && text == "*)" ==> Step(st, text) == LexState(st.tokens, false)
    ensures text != "(*" && text != "*)" && (st.inComment || Head(text) == '#' || Utils.IsCSpace(Head(text))) ==>
              Step(st, text) == st
    ensures text != "(*" && text != "*)" && !st.inComment && Head(text) != '#' && !Utils.IsCSpace(Head(text)) ==>
              Step(st, text) == LexState(st.tokens + [ClassifyWith(TokenRules, text)], st.inComment)
  {
  }

  /** The inner loop of `lex`: the matched texts of one line, from the given token list and
      comment flag. */
  method LexLine(tokens0: seq<Token>, inComment0: bool, line: seq<string>) returns (tokens: seq<Token>, inMultilineComment: bool)
    ensures LexState(tokens, inMultilineComment) == Scan(LexState(tokens0, inComment0), line[..|line|])
  {
    tokens, inMultilineComment := tokens0, inComment0;
    var j := 0;
    while j < |line|
      invariant 0 <= j <= |line|
      invariant LexState(tokens, inMultilineComment) == Scan(LexState(tokens0, inComment0), line[..j])
    {
      var text := line[j];
      ScanPrefixStep(LexState(tokens0, inComment0), line, j);
      StepCases(LexState(tokens, inMultilineComment), text);
      if text == "(*" {
        inMultilineComment := true;
      } else if text == "*)" {
        inMultilineComment := false;
      } else if !inMultilineComment && Head(text) != '#' && !Utils.IsCSpace(Head(text)) {
        var token := TokenOf(TokenRules, text);
        tokens := tokens + [token];
      }
      j := j + 1;
    }
  }

  lemma ScanPrefixStep(st: LexState, line: seq<string>, j: nat)
    requires j < |line|
    ensures Scan(st, line[..j + 1]) == Step(Scan(st, line[..j]), line[j])
  {
    assert line[..j + 1][..j] == line[..j];
  }

  /** Going on from the state after the first `i` lines with line `i` gives the state after
      the first `i + 1` lines. */
  lemma LinesStep(lines: seq<seq<string>>, i: nat, st: LexState)
    requires i < |lines| && st == Scan(LexState([], false), Flatten(lines[..i]))
    ensures Scan(st, lines[i][..|lines[i]|]) == Scan(LexState([], false), Flatten(lines[..i + 1]))
  {
    FlattenSnoc(lines, i);
    ScanAppend(LexState([], false), Flatten(lines[..i]), lines[i][..|lines[i]|]);
  }

  lemma FlattenSnoc(lines: seq<seq<string>>, i: nat)
    requires i < |lines|
    ensures Flatten(lines[..i + 1]) == Flatten(lines[..i]) + lines[i][..|lines[i]|]
  {
    assert lines[..i + 1][..i] == lines[..i];
    assert lines[i][..|lines[i]|] == lines[i];
  }

  /** The keyword search and the fallbacks for one text. */
  method TokenOf(rules: seq<TokenMatcher>, text: string) returns (token: Token)
    ensures token == ClassifyWith(rules, text)
  {
    var k := 0;
    while k < |rules|
      invariant 0 <= k <= |rules|
      invariant forall j :: 0 <= j < k ==> rules[j].pattern != text
    {
      var m := rules[k];
      if m.pattern == text {
        assert FirstMatch(text, rules) == Some(k);
        return Token(if m.replacement.Some? then m.replacement.value else text, m.kind);
      }
      k := k + 1;
    }
    if IsAlpha(Head(text)) || Head(text) == '_' {
      token := Token(text, Rule);
    } else if IsDigit(Head(text)) {
      token := Token(text, Syntax);
    } else {
      token := Token(RemoveOuterQuotes(text), Syntax);
    }
  }

  // Kind predicates

  predicate IsWildcard(kind: Kind)
  {
    kind == Optional || kind == ZeroOrMore || kind == OneOrMore
  }

  /** `is_kind_of_rule` as written: both bounds compare with `SPECIAL_RULE_KINDS_TOP`. */
  predicate IsKindOfRuleAsWritten(kind: Kind)
  {
    SpecialRuleKindsTop < kind && SpecialRuleKindsTop > kind
  }

  /** As written, no kind is a kind of rule, not even `RULE` itself. */
  lemma NoKindIsRuleAsWritten()
    ensures forall kind: Kind :: !IsKindOfRuleAsWritten(kind)
    ensures !IsKindOfRuleAsWritten(Rule)
  {
  }

  /** `is_kind_of_rule` as intended: the kinds of rule names, that is the kinds the rule
      matchers produce (`RULE` to `BARRIER`) and the explicit extras (`REGISTER_RESOURCE` to
      `RESOURCE_DEF`). `SYNTAX` and the grammar-language kinds that the enumeration also
      places between the two markers are not rule kinds. */
  predicate IsKindOfRule(kind: Kind)
  {
    Rule <= kind <= Barrier || RegisterResource <= kind <= ResourceDef
  }

  /** Every rule kind lies between the two markers; `RULE`, the named rules and the
      explicit extras are rule kinds, while the end of input, `SYNTAX`, the grammar-language
      kinds from `EXTERNAL` to `RANGLE_BRACKET` and the kinds after the bottom marker are
      not. */
  lemma RuleKindsSpan()
    ensures forall kind: Kind :: IsKindOfRule(kind) ==> SpecialRuleKindsTop < kind < SpecialRuleKindsBottom
    ensures IsKindOfRule(Rule) && IsKindOfRule(Circuit) && IsKindOfRule(Barrier) && IsKindOfRule(ResourceDef)
    ensures !IsKindOfRule(Eof) && !IsKindOfRule(Syntax) && !IsKindOfRule(Integer)
    ensures forall kind: Kind :: External <= kind <= RangleBracket ==> !IsKindOfRule(kind)
  {
  }

  predicate IsQuiet(kind: Kind)
  {
    kind == ScopeRes || kind == Lbrace || kind == Arrow
  }

  /** `kind_as_str`: the pattern of the first keyword of that kind, or the empty text. */
  function KindAsStr(kind: Kind): (s: string)
  {
    var i := FirstOfKind(kind, TokenRules);
    if i.Some? then TokenRules[i.value].pattern else ""
  }

  /** The position of the first keyword of a kind. */
  function FirstOfKind(kind: Kind, rules: seq<TokenMatcher>): (r: Option<nat>)
    ensures r.Some? ==> r.value < |rules| && rules[r.value].kind == kind
    ensures r.Some? ==> forall j :: 0 <= j < r.value ==> rules[j].kind != kind
    ensures r.None? ==> forall j :: 0 <= j < |rules| ==> rules[j].kind != kind
  {
    if rules == [] then None
    else if rules[0].kind == kind then Some(0)
    else
      var rest := FirstOfKind(kind, rules[1..]);
      if rest.None? then None else Some(rest.value + 1)
  }

  /** The name of a kind is a keyword of that kind that no earlier keyword of that kind
      precedes, and it is empty exactly when no keyword has the kind. */
  lemma KindAsStrSpec(kind: Kind)
    ensures (exists j :: 0 <= j < |TokenRules| && TokenRules[j].kind == kind) ==>
              exists j :: 0 <= j < |TokenRules| && TokenRules[j].kind == kind && KindAsStr(kind) == TokenRules[j].pattern
                && forall k :: 0 <= k < j ==> TokenRules[k].kind != kind
    ensures (forall j :: 0 <= j < |TokenRules| ==> TokenRules[j].kind != kind) ==> KindAsStr(kind) == ""
  {
    var i := FirstOfKind(kind, TokenRules);
    if i.Some? {
      assert TokenRules[i.value].kind == kind && KindAsStr(kind) == TokenRules[i.value].pattern;
    }
  }
}

/** The token kinds of the grammar lexer (`Token_kind` in the repository's root `lex.h`),
    with their enumeration values: the lexer, the grammar, the rule terms and the AST nodes
    all classify by these numbers, and `is_kind_of_rule` compares them. */
module Kinds {
  type Kind = nat

  const Eof: Kind := 0
  const SpecialRuleKindsTop: Kind := 1
  const Rule: Kind := 2
  const SubroutineDefs: Kind := 3
  const Circuit: Kind := 4
  const Body: Kind := 5
  const QubitDefs: Kind := 6
  const QubitDefsDiscard: Kind := 7
  const BitDefs: Kind := 8
  const QubitDef: Kind := 9
  const QubitDefDiscard: Kind := 10
  const BitDef: Kind := 11
  const RegisterQubitDef: Kind := 12
  const SingularQubitDef: Kind := 13
  const RegisterQubitDefDiscard: Kind := 14
  const SingularQubitDefDiscard: Kind := 15
  const RegisterBitDef: Kind := 16
  const SingularBitDef: Kind := 17
  const CircuitName: Kind := 18
  const FloatList: Kind := 19
  const FloatLiteral: Kind := 20
  const MainCircuitName: Kind := 21
  const QubitDefName: Kind := 22
  const BitDefName: Kind := 23
  const Qubit: Kind := 24
  const Bit: Kind := 25
  const QubitOp: Kind := 26
  const GateOp: Kind := 27
  const SubroutineOp: Kind := 28
  const GateName: Kind := 29
  const QubitList: Kind := 30
  const BitList: Kind := 31
  const QubitDefList: Kind := 32
  const QubitDefSize: Kind := 33
  const BitDefList: Kind := 34
  const BitDefSize: Kind := 35
  const SingularQubit: Kind := 36
  const RegisterQubit: Kind := 37
  const SingularBit: Kind := 38
  const RegisterBit: Kind := 39
  const QubitName: Kind := 40
  const BitName: Kind := 41
  const QubitIndex: Kind := 42
  const BitIndex: Kind := 43
  const Subroutine: Kind := 44
  const CircuitId: Kind := 45
  const Indent: Kind := 46
  const Dedent: Kind := 47
  const Number: Kind := 48
  const IfStmt: Kind := 49
  const ElseStmt: Kind := 50
  const ElifStmt: Kind := 51
  const Disjunction: Kind := 52
  const Conjunction: Kind := 53
  const Inversion: Kind := 54
  const Expression: Kind := 55
  const CompareOpBitwiseOrPair: Kind := 56
  const SubroutineOpArgs: Kind := 57
  const GateOpArgs: Kind := 58
  const SubroutineOpArg: Kind := 59
  const CompoundStmt: Kind := 60
  const CompoundStmts: Kind := 61
  const IndentationDepth: Kind := 62
  const H: Kind := 63
  const X: Kind := 64
  const Y: Kind := 65
  const Z: Kind := 66
  const Rz: Kind := 67
  const Rx: Kind := 68
  const Ry: Kind := 69
  const U1: Kind := 70
  const S: Kind := 71
  const Sdg: Kind := 72
  const T: Kind := 73
  const Tdg: Kind := 74
  const V: Kind := 75
  const Vdg: Kind := 76
  const PhasedX: Kind := 77
  const ProjectZ: Kind := 78
  const MeasureAndReset: Kind := 79
  const Measure: Kind := 80
  const Cx: Kind := 81
  const Cy: Kind := 82
  const Cz: Kind := 83
  const Ccx: Kind := 84
  const U2: Kind := 85
  const Cnot: Kind := 86
  const Ch: Kind := 87
  const Crz: Kind := 88
  const U3: Kind := 89
  const Cswap: Kind := 90
  const Toffoli: Kind := 91
  const U: Kind := 92
  const Barrier: Kind := 93
  const Syntax: Kind := 94
  const External: Kind := 95
  const Internal: Kind := 96
  const Owned: Kind := 97
  const Global: Kind := 98
  const ScopeRes: Kind := 99
  const Arrow: Kind := 100
  const RuleAppend: Kind := 101
  const RuleStart: Kind := 102
  const Separator: Kind := 103
  const RuleEnd: Kind := 104
  const Lparen: Kind := 105
  const Rparen: Kind := 106
  const Lbrack: Kind := 107
  const Rbrack: Kind := 108
  const Lbrace: Kind := 109
  const Rbrace: Kind := 110
  const ZeroOrMore: Kind := 111
  const Optional: Kind := 112
  const OneOrMore: Kind := 113
  const LangleBracket: Kind := 114
  const RangleBracket: Kind := 115
  const RegisterResource: Kind := 116
  const RegisterResourceDef: Kind := 117
  const SingularResource: Kind := 118
  const SingularResourceDef: Kind := 119
  const ResourceDef: Kind := 120
  const SpecialRuleKindsBottom: Kind := 121
  const GrammarSyntaxTop: Kind := 122
  const Integer: Kind := 123
  const MetaGrammar: Kind := 124
  const Pytket: Kind := 125
  const Guppy: Kind := 126
  const Cirq: Kind := 127
  const Qasm: Kind := 128
  const Qiskit: Kind := 129
  const GrammarSyntaxBottom: Kind := 130
}

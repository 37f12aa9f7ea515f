# QuteFuzz circuit assembly and grammar front end, modelled in Dafny

QuteFuzz generates quantum circuits for differential testing. This project models two of its parts.

**The source-to-source circuit assemblers** (Python). Several independently generated circuit units are merged into one module:
- Unit `i` gets the prefix `c{i}_` for its top-level function names, applied by a scope-aware renamer (`CircuitRenamer`).
- Imports are kept first-seen-wins by their unparsed text.
- A master routine is synthesised in one of three ways:
  - guppy capture convention: allocate each entry routine's `qubit` / `array[qubit, n]` parameters, call it, then record `result("m.p", measure…)`;
  - qiskit shared-register convention: call `c{i}_main(qc, qr, cr)` on registers sized `max(1, largest request)`;
  - the stand-alone script: argument-less calls.

**The C++ fuzzer's grammar front end and AST bookkeeping:**
- the grammar lexer's classification loop and kind predicates;
- the grammar token cursor and rule table;
- branches, term constraints and node occurrence constraints;
- integer partitioning of a child target, and the search for a node of a kind;
- resource-definition bookkeeping of a circuit;
- small integer, string and collection helpers.

The model follows the shape of the code:
- Mutable objects are Dafny classes whose methods carry `modifies` clauses: `CircuitRenamer` with its `local_scopes` stack, `Branch`, `Rule`, `Grammar`, `Node`, `Circuit` and `Lexer`.
- Loops become methods with invariants, proved against specification functions.
- Pure helpers are functions.

Randomness (`random_uint`, `random.randint`) is a parameter: a roll, or a stream of rolls. File reading and `ast.parse` are a parameter too: each unit is given as its parsed body, or `None` when reading, parsing or an opaque transformer raised. `ast.unparse` of a statement is a function parameter. `std::regex` matching is replaced by the sequence of matched texts of each line.

Files:
- `wrappers.dfy`: Option and Result.
- `text.dfy`: decimal rendering, strip, split and join.
- `pyast.dfy`: the Python tree.
- `renamer.dfy`: the renamer.
- `assembly.dfy`, `guppy_master.dfy`, `guppy_assembly.dfy`, `lib_assembler.dfy`, `llm_assembler.dfy`, `scripts_assembler.dfy`, `main_wrapper.dfy`, `markdown.dfy`: the Python side.
- `utils.dfy`, `combinations.dfy`, `coll.dfy`, `kinds.dfy`, `lexer.dfy`, `regex_lex.dfy`, `branch.dfy`, `term_constraint.dfy`, `grammar.dfy`, `node.dfy`, `partition.dfy`, `node_find.dfy`, `circuit.dfy`: the C++ side.

## Model

| member | source | states |
|---|---|---|
| PyAst.GetArraySize | llm_generator/lib/ast_ops.py:7-26 | a size is returned only for a subscript of the name `array` whose (possibly `Index`-wrapped) slice is a two-element tuple starting with `qubit` and ending with a constant; the size is that constant |
| PyAst.ArraySizeOfAnnotation | llm_generator/circuit_assembler.py:8-27 | every `array[qubit, <const>]` annotation, wrapped or not, yields its constant |
| PyAst.ArraySizeOnlyOfAnnotation | llm_generator/lib/ast_ops.py:7-26 | conversely, a size is found only in such an annotation, and it is that annotation's literal |
| PyAst.QubitIsNotArray | llm_generator/lib/ast_ops.py:4-5 | a bare `qubit` annotation (`is_qubit`) never has an array size, so the two parameter shapes never overlap |
| PyAst.TopLevelDefNames | llm_generator/circuit_assembler.py:101-103 | the first pass collects exactly the names of the top-level `FunctionDef`s |
| Renaming.RenameNode | llm_generator/lib/ast_ops.py:28-70 | a visit leaves the scope stack as it found it, except for names added to scopes that were already open; a function definition leaves it exactly as it was |
| Renaming.DefRenamedIffGlobal | llm_generator/lib/ast_ops.py:34-38 | a definition is renamed to prefix+name exactly when its name is a unit global, and the scope stack depth is restored after it |
| Renaming.NameRenaming | llm_generator/lib/ast_ops.py:54-70 | a Name is prefixed exactly when no active scope holds it and it is a global; a Store inside a scope adds the new id to the innermost scope only; otherwise the stack is unchanged |
| Renaming.AddToTop | llm_generator/lib/ast_ops.py:49-52 | a name joins the innermost scope only when a scope is active; other scopes are untouched |
| Renaming.RenameNodeIsSubst | scripts/circuit_assembler.py:10-46 | when no local binding reuses a global name, the scope-aware walk equals plain substitution of every global def and name by its prefixed form, and it restores the stack |
| Renaming.FunctionDefIsSubst | scripts/circuit_assembler.py:10-23 | the same for a function definition: one scope is pushed for parameters and body and popped after |
| Renaming.RenameSeqIsSubst | scripts/circuit_assembler.py:10-46 | the same for a list of statements visited in order |
| Renaming.CircuitRenamer.constructor | llm_generator/lib/ast_ops.py:29-32 | the renamer starts with the given prefix and globals and an empty scope stack |
| Renaming.CircuitRenamer.Visit | llm_generator/circuit_assembler.py:29-71 | the in-place visit returns the renamed node, and leaves `local_scopes` as the reference renaming says |
| Renaming.CircuitRenamer.GenericVisit | llm_generator/lib/ast_ops.py:44 | visiting each child in field order agrees with the reference renaming |
| Renaming.CircuitRenamer.VisitFunctionDef | llm_generator/lib/ast_ops.py:34-47 | renames a global def, pushes one scope, visits the children, pops the scope; the stack is exactly the old one afterwards |
| Renaming.CircuitRenamer.VisitArg | llm_generator/lib/ast_ops.py:49-52 | the parameter joins the innermost scope if there is one |
| Renaming.CircuitRenamer.VisitName | llm_generator/lib/ast_ops.py:54-70 | the innermost-first scope search (loop invariant: found iff some scope from there up holds the id) gives the reference renaming and scope update |
| Assembly.UnitPrefixesDistinct | llm_generator/circuit_assembler.py:97 | names prefixed for two different units are never equal |
| Assembly.FirstOccurrencesSpec | llm_generator/lib/circuit_assembler.py:50-56 | first-seen-wins keeps no text twice, keeps nothing already seen, and keeps every text not seen before |
| Assembly.DedupImportsIsFirstOccurrences | llm_generator/circuit_assembler.py:108-114 | one unit's import pass appends exactly the first occurrences of its import texts and adds them to the seen set |
| Assembly.ImportsAfterIsFirstOccurrences | llm_generator/lib/circuit_assembler.py:216-222 | across all read units the deduplication equals one first-seen-wins pass over their import texts, in unit order and then source order |
| Assembly.NonImports | llm_generator/circuit_assembler.py:108-116 | the statements passed on to renaming are exactly the non-import statements, in order |
| Assembly.RenameKept | llm_generator/circuit_assembler.py:121-130 | every non-dropped statement is renamed in order; an `Expr` whose text holds "compile" or "enable_experimental_features" is dropped |
| Assembly.RenameKeepsDefs | llm_generator/lib/ast_ops.py:34-38 | renaming keeps the kind of a top-level node, and a definition's new name is prefix+name exactly when the name is global |
| Assembly.EntryOfUnit | llm_generator/circuit_assembler.py:135-138 | the entry routine found in unit `i` is the renamed first top-level `main`, and there is one exactly when the unit defines `main` |
| Assembly.FirstDefNamed | llm_generator/circuit_assembler.py:135-138 | the result is a `FunctionDef` with the name, and no earlier definition has it |
| Assembly.CollectGlobals | llm_generator/lib/circuit_assembler.py:209-211 | the loop collects exactly the top-level function names |
| Assembly.SplitImports | llm_generator/circuit_assembler.py:107-116 | the second-pass loop returns the deduplicated imports and seen set, and the remaining statements |
| Assembly.RenameUnit | llm_generator/circuit_assembler.py:118-132 | the renaming loop, with one renamer per unit, produces the reference renamed body |
| Assembly.FindEntry | llm_generator/circuit_assembler.py:135-138 | the search returns the first `FunctionDef` named `c{i}_main`, or none |
| Assembly.HarnessIsNotGuppylang | llm_generator/circuit_assembler.py:80 | the pre-seeded harness import text never counts as a `guppylang` import |
| GuppyMaster.ArgPlanOf | llm_generator/circuit_assembler.py:179-265 | an unannotated or unrecognised parameter produces nothing; a quantum one produces an allocation, a call argument and a capture |
| GuppyMaster.PlansFollowQuantumParams | llm_generator/lib/circuit_assembler.py:299-350 | there is one plan per quantum parameter, in parameter order |
| GuppyMaster.ArgPlanOfQuantum | llm_generator/circuit_assembler.py:186-265 | `qubit` gives `qubit()`/`measure`, and `array[qubit, n]` gives `array(qubit() for _ in range(n))`/`measure_array`; the local is `m_p` and the key is `"m.p"` |
| GuppyMaster.PlansMatchParams | llm_generator/lib/circuit_assembler.py:294-387 | each plan is the reference plan of the quantum parameter in the same position |
| GuppyMaster.EntryBlockShape | llm_generator/lib/circuit_assembler.py:352-387 | a routine with r quantum parameters gets r allocations, then the call with those r arguments, then r captures after the call |
| GuppyMaster.BlocksHaveNoPass | llm_generator/circuit_assembler.py:173-279 | the entry blocks never contain `pass` |
| GuppyMaster.MasterPassIffNoEntries | llm_generator/circuit_assembler.py:281-282 | the master body holds `pass` exactly when there is no entry routine |
| GuppyMaster.ArgSetup | llm_generator/circuit_assembler.py:188-242 | the setup and measurement chosen by the annotation's shape agree with the plan |
| GuppyMaster.AppendEntryBlock | llm_generator/circuit_assembler.py:176-279 | the parameter loop appends exactly the routine's entry block |
| GuppyMaster.BuildMasterBody | llm_generator/circuit_assembler.py:171-282 | the master loop builds the reference master body |
| GuppyAssembly.GuppyMainsAreEntryRoutines | llm_generator/circuit_assembler.py:135-138 | the entry routines collected are the renamed first `main` of each read unit that defines one, in unit order |
| GuppyAssembly.GuppyImportSection | llm_generator/circuit_assembler.py:80-88 | the import section is the harness import followed by the first occurrence of every other unit import text; the harness is never repeated |
| GuppyAssembly.EnableIffGuppylangImport | llm_generator/lib/circuit_assembler.py:260-273 | `enable_experimental_features()` is emitted exactly when some unit import text contains "guppylang" |
| GuppyAssembly.GuppyModuleEnds | llm_generator/circuit_assembler.py:285-296 | the module starts with the harness import and ends with the zero-argument `@guppy` master `main` |
| GuppyAssembly.GuppyPassIffNoMain | llm_generator/lib/circuit_assembler.py:389-390 | the master body is `pass` exactly when no read unit defines a top-level `main` |
| GuppyAssembly.CollectGuppyUnits | llm_generator/lib/circuit_assembler.py:181-250 | the unit loop produces the reference imports, seen set, renamed bodies and entry routines; unreadable units are skipped |
| GuppyAssembly.AssembleGuppy | llm_generator/lib/circuit_assembler.py:181-411 | the output is the reference module: imports, the feature switch, the bodies, then the master |
| LlmAssembler.LlmModuleShape | llm_generator/circuit_assembler.py:302-326 | the module starts with the harness import; the master comes third from last; the last two statements are `gt = guppyTesting()` and `gt.ks_diff_test(main, unique_index)`; the master body is `pass` exactly when there is no entry routine |
| LlmAssembler.Assemble | llm_generator/circuit_assembler.py:73-329 | the output is the capture-convention module followed by the diff-test trailer |
| ScriptAssembler.ScriptMainsAreEntryNames | scripts/circuit_assembler.py:109-110 | the called names are the names of the capture-convention entry routines |
| ScriptAssembler.ScriptMainsMembers | scripts/circuit_assembler.py:109-110 | a name is called exactly when it is `c{i}_main` for a read unit `i` that defines `main` |
| ScriptAssembler.ScriptMainsDistinct | scripts/circuit_assembler.py:109-110 | no routine is called twice |
| ScriptAssembler.MasterCalls | scripts/circuit_assembler.py:144-154 | one argument-less call per name, in order |
| ScriptAssembler.ScriptPassIffNoMain | scripts/circuit_assembler.py:155-156 | the master body is `pass` exactly when no read unit defines `main` |
| ScriptAssembler.ScriptModuleShape | scripts/circuit_assembler.py:175-199 | the module starts with the pre-seeded harness import and ends with the master and then the two diff-test statements |
| ScriptAssembler.BuildScriptMaster | scripts/circuit_assembler.py:143-156 | the master loop builds one call per name, or `pass` |
| ScriptAssembler.Assemble | scripts/circuit_assembler.py:48-202 | the output is the reference script module |
| LibAssembler.QiskitTopLevel | llm_generator/lib/circuit_assembler.py:58-66 | `if __name__ …` guards and bare `main()` calls are dropped; other non-imports are kept in order |
| LibAssembler.QiskitCalls | llm_generator/lib/circuit_assembler.py:80-90 | there is one `c{i}_main(qc, qr, cr)` per processed unit, in unit order |
| LibAssembler.PoolIsMaxOfOneAndRequests | llm_generator/lib/circuit_assembler.py:19-40 | the pool is at least 1 and at least every processed unit's request, and it equals 1 or one of the requests |
| LibAssembler.QiskitCallsMembers | llm_generator/lib/circuit_assembler.py:80-94 | there is a call to unit `i`'s routine exactly when unit `i` was processed; skipped units contribute nothing |
| LibAssembler.QiskitCallsDistinct | llm_generator/lib/circuit_assembler.py:80-90 | no routine is called twice |
| LibAssembler.QiskitMasterShape | llm_generator/lib/circuit_assembler.py:110-158 | the master body is the `qr`, `cr`, `qc` register statements sized by the pools, then the calls (or `pass`), then `return qc` |
| LibAssembler.QiskitCallsEmpty | llm_generator/lib/circuit_assembler.py:151-158 | there is no call at all exactly when no unit was processed |
| LibAssembler.QiskitImportSection | llm_generator/lib/circuit_assembler.py:11-23 | the harness import comes first; the units' imports are deduplicated among themselves only (the harness is not pre-seeded) |
| LibAssembler.SplitQiskit | llm_generator/lib/circuit_assembler.py:47-66 | the second-pass loop deduplicates imports, and keeps the other statements except guards and bare `main()` calls |
| LibAssembler.RenameQiskitUnit | llm_generator/lib/circuit_assembler.py:70-77 | every kept statement is renamed by one renamer per unit |
| LibAssembler.AssembleQiskit | llm_generator/lib/circuit_assembler.py:5-179 | the output is the reference qiskit module |
| LibAssembler.Assemble | llm_generator/lib/circuit_assembler.py:413-417 | the qiskit assembler runs exactly when the language is "qiskit", and the guppy assembler otherwise |
| MainWrapper.ParamLines | llm_generator/lib/ast_ops.py:95-113 | an unannotated or unrecognised parameter contributes nothing; `qubit` and `array[qubit, n]` contribute their setup and result lines |
| MainWrapper.WrapperPlanFollowsQuantumParams | llm_generator/lib/ast_ops.py:95-113 | one setup line, one result line and one call argument per quantum parameter, in order |
| MainWrapper.UnchangedIffNoMain | llm_generator/lib/ast_ops.py:77-89 | the code comes back unchanged exactly when it does not parse or has no top-level `main` |
| MainWrapper.WrappedShape | llm_generator/lib/ast_ops.py:115-126 | otherwise the output begins with the original code, then the `@guppy def main_wrapper()` header, and ends with `main_wrapper.compile()` |
| MainWrapper.CollectWrapperLines | llm_generator/lib/ast_ops.py:95-113 | the parameter loop collects the reference lines |
| MainWrapper.BuildWrapperCode | llm_generator/lib/ast_ops.py:115-124 | the wrapper text is built piece by piece as the reference text |
| MainWrapper.AddMainWrapperGuppy | llm_generator/lib/ast_ops.py:72-126 | the whole function equals the reference result |
| Text.StripSpec | llm_generator/lib/utils.py:92 | `strip()` yields a piece of the input with no whitespace at either end |
| Text.JoinSplit | llm_generator/lib/utils.py:97-105 | joining the pieces of a split with the separator gives the string back |
| Markdown.NoOuterWhitespace | llm_generator/lib/utils.py:92-107 | the result has no leading or trailing whitespace |
| Markdown.NoFenceIsStrip | llm_generator/lib/utils.py:95-107 | when the stripped input neither starts nor ends with a fence, the result is `input.strip()` |
| Markdown.OpeningLineRemoved | llm_generator/lib/utils.py:95-99 | an opening fence removes its whole first line: the stripped text is that line, a newline, and the rest |
| Markdown.ClosingLineRemoved | llm_generator/lib/utils.py:102-105 | a closing fence removes its whole last line |
| Markdown.DropLastLineSpec | llm_generator/lib/utils.py:102-105 | dropping the last line gives everything before the last newline, or nothing |
| Markdown.ResultIsPieceOfInput | llm_generator/lib/utils.py:92-107 | the result is a piece of the input, so it has no more lines (newlines) than the input |
| Markdown.StripIdempotent | llm_generator/lib/utils.py:92-107 | stripping twice is stripping once |
| Utils.LowerAllSpec | src/utils/utils.cpp:15-19 | lower-casing keeps the length, leaves no capital letter, and changes nothing else |
| Utils.Lower | src/utils/utils.cpp:15-19 | the in-place loop over the array lower-cases every character |
| Utils.RandomUint | src/utils/utils.cpp:30-38 | `min` when `min >= max`; otherwise a value in [min, max] |
| Utils.RandomUintCovers | src/utils/utils.cpp:30-38 | every value of the range is drawn by some roll |
| Utils.SafeStoulNotANumber | src/utils/utils.cpp:41-48 | text with no number after its white space and sign gives the default |
| Utils.SafeStoulOfRendering | src/utils/utils.cpp:41-48 | the decimal rendering of an unsigned int reads back as that number |
| Utils.SafeStoulOfDigits | src/utils/utils.cpp:41-48 | a digit string below 2^32 reads as its value |
| Utils.SafeStoulMinusOne | src/utils/utils.cpp:41-48 | "-1" wraps to 2^32-1, as `strtoul` does |
| Utils.VectorSum | src/utils/utils.cpp:78-86 | the accumulator loop returns the sum of the elements |
| Utils.VectorMax | src/utils/utils.cpp:88-96 | the result is at least 0 and at least every element, and it is 0 or some element |
| Utils.EscapeString | src/utils/utils.cpp:157-168 | the loop computes the switch as written (see Findings) |
| Utils.UnescapeEscape | src/utils/utils.cpp:157-168 | with ordinary characters copied, unescaping the escaped text gives the input back |
| Combinations.PrevPermutation | src/utils/utils.cpp:72 | `std::prev_permutation` on a mask: the result is a rearrangement of the mask, and when it reports true it is strictly earlier in the walk |
| Combinations.PrevPermutationIsPrevious | src/utils/utils.cpp:72 | for every rearrangement m below the mask, `prev_permutation` reports true and its result is at least m, so it is the greatest rearrangement below the mask |
| Combinations.PrevPermutationWraps | src/utils/utils.cpp:72 | when `prev_permutation` reports false, its result is the greatest rearrangement |
| Combinations.PrevPermutationFalseIffLeast | src/utils/utils.cpp:72 | `prev_permutation` reports false exactly when the mask is the least of its rearrangements |
| Combinations.IndicesAreCombination | src/utils/utils.cpp:60-71 | the indices of the ones of a length-n mask with r ones are a strictly increasing r-subset of [0, n-1] |
| Combinations.IndicesInjective | src/utils/utils.cpp:60-71 | different masks of one length give different index lists |
| Combinations.MaskIndices | src/utils/utils.cpp:64-69 | the inner loop collects the indices of the ones in increasing order |
| Combinations.NChooseR | src/utils/utils.cpp:56-76 | empty when n < r; otherwise every listed result is a strictly increasing r-subset of [0, n-1], every such subset is listed, and none is listed twice |
| Coll.FilterMembers | include/utils/coll.h:11-15 | an element is kept exactly when it is in the collection and satisfies the predicate |
| Coll.FilterAppend | include/utils/coll.h:11-15 | filtering keeps order: filtering two pieces one after the other is filtering the whole |
| Coll.FilterAllOrNone | include/utils/coll.h:11-15 | if every element satisfies the predicate, the collection comes back whole; if none does, the result is empty |
| Coll.ElemAt | include/utils/coll.h:18-25 | `collection[index]` when the index is in range, otherwise a fresh unused default element |
| Coll.GetNextFromColl | include/utils/coll.h:41-52 | marks and returns the first unused element and changes no other flag; when all are used, returns a fresh default and changes nothing |
| Coll.GetRandomFromColl | include/utils/coll.h:27-39 | the returned element was unused (or is a fresh default after an out-of-range draw) and is now marked used; no other flag changes |
| Coll.AllUsedNeverLands | include/utils/coll.h:27-39 | in a non-empty collection whose every element is used, no draw ends the search, so the source loops forever |
| Coll.UnusedCanBeDrawn | include/utils/coll.h:27-39 | every unused element is picked by some roll |
| Branch.CountIsFilteredSize | include/grammar/branch.h:34-43 | the count is the number of rule terms of the kind, which is at most the size |
| Branch.CountRuleAppend | include/grammar/branch.h:34-43 | counting adds up over concatenation |
| Branch.Branch.constructor | include/grammar/branch.h:9 | a new branch is empty and not recursive |
| Branch.Branch.FromTerms | include/grammar/branch.h:14-18 | the branch holds the given terms in order |
| Branch.Branch.SetRecursiveFlag | include/grammar/branch.h:22 | the flag is set and the terms are unchanged |
| Branch.Branch.Add | include/grammar/branch.h:24-26 | the term goes last, the size grows by one, and the flag is unchanged |
| Branch.Branch.CountRuleOccurances | include/grammar/branch.h:34-43 | the counting loop returns the number of rule terms of the kind |
| Branch.Branch.Clear | include/grammar/branch.h:73-75 | no terms are left and the recursive flag is kept |
| TermConstraint.Resolve | include/grammar/term_constraint.h:33-51 | NONE gives 1; RANDOM_MAX gives a value in [rand_min, rand_max] (rand_min when min >= max); DYNAMIC_MAX gives max(0, lookup(dependency) + offset) in `int` |
| TermConstraint.Dynamic | include/grammar/term_constraint.h:19-25 | the DYNAMIC_MAX constructor zeroes rand_min and rand_max |
| TermConstraint.FixedBoundsResolveToBound | include/grammar/term_constraint.h:37-38 | equal bounds always resolve to that bound |
| TermConstraint.EveryBoundedCountOccurs | include/grammar/term_constraint.h:37-38 | every value between the bounds is produced by some draw |
| TermConstraint.DynamicCountWraps | include/grammar/term_constraint.h:41-46 | a looked-up count of 2^31 wraps to a negative `int` and is clamped to 0 |
| Lexer.UnquoteQuoted | lex.h:511-520 | a text of length > 2 in matching quotes comes back without them |
| Lexer.QuotesKept | lex.h:511-520 | texts of at most two characters, and texts not opened and closed by the same quote, come back unchanged |
| Lexer.FirstMatch | lex.h:570-576 | the position of the first keyword whose pattern equals the text; no earlier keyword matches |
| Lexer.LexEndsWithOneEof | lex.h:594 | the token list ends with the `_EOF` token and has no other `_EOF` token |
| Lexer.NoKeywordIsEof | lex.h:365-495 | no keyword of the table has the `_EOF` kind |
| Lexer.CommentSuppresses | lex.h:545-557 | inside an open `(*` comment, texts up to the closing `*)` add no token |
| Lexer.SkippedTexts | lex.h:545-565 | comment markers, `#` comments and whitespace add no token |
| Lexer.KeywordToken | lex.h:570-578 | a keyword text outside a comment adds exactly the token of the first matching entry (its replacement or the text) |
| Lexer.GenericClassification | lex.h:582-590 | any other text gives RULE if it starts with a letter or `_`, SYNTAX if it starts with a digit, and otherwise SYNTAX without its outer quotes |
| Lexer.ScanExtends | lex.h:538-591 | scanning only appends tokens, and never an `_EOF` token |
| Lexer.Lexer.constructor | lex.h:505-509 | constructing the lexer lexes the given lines |
| Lexer.Lexer.Lex | lex.h:522-596 | the line and text loops with the comment flag store the reference token list |
| Lexer.LexLine | lex.h:538-591 | the inner loop over one line's texts continues the reference scan |
| Lexer.TokenOf | lex.h:567-590 | the keyword search and the fallbacks give the reference classification |
| Lexer.NoKindIsRuleAsWritten | lex.h:632-637 | as written, `is_kind_of_rule` is false for every kind (see Findings) |
| Lexer.RuleKindsSpan | lex.h:16-280 | the corrected predicate holds for RULE, the named rules and the extras up to RESOURCE_DEF, all between the two markers, and not for the end of input, SYNTAX or the grammar-language kinds from EXTERNAL to RANGLE_BRACKET |
| Lexer.KindAsStrSpec | lex.h:646-654 | the result is the pattern of the first keyword of that kind, and "" exactly when no keyword has the kind |
| RegexLex.MakeMatcher | include/grammar/lex.h:203-220 | an exact matcher wraps its pattern as `^p$`; a non-exact matcher keeps `p` |
| RegexLex.KindClasses | include/grammar/lex.h:159-183 | wildcards are exactly OPTIONAL, ZERO_OR_MORE and ONE_OR_MORE, and none is a rule kind; the quiet kinds are exactly the seven listed |
| RegexLex.BuildFullRegex | include/grammar/lex.h:363-374 | the initialiser loop gives "(" + the patterns joined by "\|" + ")" |
| RegexLex.FullRegexHoldsEveryPattern | include/grammar/lex.h:363-374 | its length is the patterns' total length, plus the separators, plus 2, and every pattern occurs in it |
| RegexLex.JoinLength | include/grammar/lex.h:366-370 | the joined text has exactly one separator between neighbours |
| Grammar.Grammar.constructor | src/grammar/grammar.cpp:5-13 | the tokens are the meta-grammar tokens followed by the lexed file; the cursor is at 0 and the current and next tokens are prepared |
| Grammar.Grammar.Consume | src/grammar/grammar.cpp:15-24 | the pointer moves on by n; the current token is an error exactly when the pointer equals the number of tokens, and otherwise it is the token there |
| Grammar.Grammar.ConsumeKind | src/grammar/grammar.cpp:26-33 | moves on by one when the current token has the kind; otherwise records an error and stays put |
| Grammar.Grammar.ConsumeValue | src/grammar/grammar.cpp:35-42 | the same, by text |
| Grammar.Grammar.Peek | src/grammar/grammar.cpp:45-52 | the next token is an error exactly when pointer+1 equals the number of tokens; otherwise it is `tokens[pointer+1]` |
| Grammar.Grammar.IsRule | src/grammar/grammar.cpp:54-62 | true exactly when `get_rule_pointer_if_exists` would find a rule for the same name and scope |
| Grammar.Grammar.GetRulePointerIfExists | src/grammar/grammar.cpp:93-101 | the first rule with the name and a matching scope, or none |
| Grammar.Grammar.GetRulePointer | src/grammar/grammar.cpp:107-117 | returns the first equal rule unchanged, or appends exactly one new empty rule; the table stays free of duplicates, and the same lookup then finds the returned rule |
| Grammar.Rule.Add | src/grammar/rule.cpp:6-12 | the branch goes last; a recursive branch makes the rule recursive |
| Grammar.Rule.Clear | include/grammar/rule.h:42 | no branch is left |
| Grammar.Grammar.AddBranchToCurrentRule | src/grammar/grammar.cpp:152-156 | the working branch is appended to the rule on top of the stack, and the working branch is then empty |
| Grammar.Grammar.AddConstraintToLastTerm | src/grammar/grammar.cpp:158-168 | an empty working branch reports an error and changes nothing; otherwise only the last term's constraint is replaced |
| Grammar.Grammar.ApplyWildcard | src/grammar/grammar.cpp:298-310 | `?`, `+` and `*` put their RANDOM_MAX constraint on the last term |
| Grammar.WildcardConstraint | src/grammar/grammar.cpp:298-310 | `?` is (0,1), `+` is (1,WILDCARD_MAX), `*` is (0,WILDCARD_MAX) |
| Grammar.WildcardRepeats | src/grammar/grammar.cpp:298-310 | `?` repeats a term at most once, `+` at least once, and none more than WILDCARD_MAX |
| Grammar.WildcardCountsReachable | src/grammar/grammar.cpp:298-310 | every count a wildcard allows is drawn by some roll |
| Grammar.Grammar.ApplyCount | src/grammar/grammar.cpp:230-240 | a bracketed number fixes the last term's repetitions to `safe_stoul(text, 1)` |
| Grammar.CountConstraintFixes | src/grammar/grammar.cpp:230-233 | a written count repeats the term exactly that many times, whatever the draw |
| Grammar.LookupSnapshot | src/grammar/grammar.cpp:93-101 | looking up the table's values finds what `get_rule_pointer_if_exists` finds |
| Grammar.NoScopeNeverFound | include/grammar/rule.h:48-50 | a rule with no scope flag equals no rule |
| Grammar.DigEmptyUnlessSole | src/grammar/grammar.cpp:65-87 | every version of the dig gives "" unless the rule exists and has one branch holding one term |
| Grammar.DigAgreesOnSyntax | src/grammar/grammar.cpp:72-80 | when the sole term is syntax of a kind that is not a rule kind, the as-written dig, the corrected dig and the dig by variant all return it |
| Grammar.DigFindsSoleSyntax | src/grammar/grammar.cpp:65-87 | any non-empty result of the dig by variant is the sole syntax term of some rule |
| Grammar.DigSelfLoopNeverEnds | src/grammar/grammar.cpp:76-77 | a rule whose sole term is itself never finishes its dig |
| Grammar.DigCorrectedFollowsRuleTerms | src/grammar/grammar.cpp:65-87 | when syntax terms carry SYNTAX and rule terms a rule kind, the dig with the corrected `is_kind_of_rule` gives the same text as the dig by variant, and runs out of fuel exactly when it does |
| Grammar.TermTestCorrected | src/grammar/grammar.cpp:246-254 | as written a rule name is never taken as a term; with the corrected predicate it is, and every kind handled by a later branch (EXTERNAL to RANGLE_BRACKET) still reaches that branch |
| Grammar.DigThroughRuleTerm | src/grammar/grammar.cpp:76-79 | for the table `a = b; b = "x";` the as-written dig of `a` fails with `bad_variant_access`, and the corrected dig gives "x" |
| Node.AddOccurances | include/ast/node/node.h:53-60 | an existing rule's count grows by n (mod 2^32), a new rule gets n, and no other entry changes |
| Node.SetOccurances | include/ast/node/node.h:45-47 | the rule's count becomes n whatever it was, and no other entry changes |
| Node.Passed | include/ast/node/node.h:35-43 | true exactly when every constrained rule kind occurs in the branch exactly as often as required |
| Node.GrammarOverridesOwn | include/ast/node/node.h:126-132 | after `add_child`, on every rule the grammar constraint names, the child's own constraint holds the grammar's value; other rules keep their own value |
| Node.GivenWins | include/ast/node/node.h:106-117 | with a parent grammar constraint, the given entries win in the child's grammar constraint; on the parent's other rules the parent's count is added, modulo 2^32, to the child's own (or stands alone when the child has none); the child's remaining rules keep their counts, and no other rule appears |
| Node.GivenAddsWithoutParent | include/ast/node/node.h:120-124 | without a parent grammar constraint, a given count is added to the child's own grammar count |
| Node.Node.AddConstraint | include/ast/node/node.h:226-232 | adds to the constraint, creating it if absent |
| Node.Node.AddGrammarConstraint | include/ast/node/node.h:234-240 | the same for the grammar constraint |
| Node.Node.AddChild | include/ast/node/node.h:103-135 | the child goes last; its grammar constraint is merged and its own constraint is overridden as specified; the parent's constraints and partition are unchanged |
| Node.Node.ChildAt | include/ast/node/node.h:191-197 | the child at the index, or none when the index is out of range |
| Node.Node.SetConstraint | include/ast/node/node.h:212-224 | an error is reported exactly when the lengths differ; the constraint maps each kind to its occurrence count, a later repeat winning |
| Node.ZipMapSpec | include/ast/node/node.h:217-221 | the constrained kinds are exactly the given kinds, each with the count at its last occurrence |
| Node.Node.GetNextChildTarget | src/ast/node/node.cpp:56-65 | returns the next partition entry and advances the counter; once the partition is exhausted, returns 1 |
| Node.TargetsInOrder | src/ast/node/node.cpp:56-65 | successive calls from a fresh cursor return the partition in order, then 1 |
| Node.Node.MakePartition | src/ast/node/node.cpp:70-121 | when the cuts are drawn, the partition is the reference partition |
| Node.Node.MakeControlFlowPartition | src/ast/node/node.cpp:126-140 | finishes exactly when the partition does; then the child partition is the new partition (appended to, or replacing, the old one as `make_partition` does) and the ELSE/ELIF constraint is set; otherwise the child partition and the constraint are unchanged; the partition counter, the children and the grammar constraint never change |
| Node.ControlFlowConstraintSpec | src/ast/node/node.cpp:129-139 | one child constrains ELSE and ELIF to 0; several children constrain exactly one of them to 1 |
| Partition.PartitionSingle | src/ast/node/node.cpp:72-73 | one child, or a target of 1, gives `{target}`; with one child this holds for every target, 0 and negative ones included |
| Partition.PartitionAllOnes | src/ast/node/node.cpp:75-76 | target == n_children gives n ones |
| Partition.PartitionSplitsTarget | src/ast/node/node.cpp:86-119 | when the cuts are drawn, the partition has n_children positive parts that sum to the target |
| Partition.DrawCutsDistinct | src/ast/node/node.cpp:88-95 | the drawn cuts are pairwise different and lie in [1, target-1] |
| Partition.NeverFinishesBelowChildren | src/ast/node/node.cpp:88-95 | with a target below the number of children, no roll stream completes the cuts |
| Partition.FinishesAboveChildren | src/ast/node/node.cpp:88-95 | with a larger target, some roll stream completes them |
| Partition.GapsSum | src/ast/node/node.cpp:111-117 | the gaps sum to the target |
| Partition.GapsPositive | src/ast/node/node.cpp:111-117 | the gaps of strictly increasing cuts within (0, target) are positive |
| Partition.SortKeeps | src/ast/node/node.cpp:103 | sorting keeps the same values, so they stay distinct and in range |
| Partition.DrawCutsLoop | src/ast/node/node.cpp:88-96 | the nested draw loops give the reference cuts |
| Node.GapsLoop | src/ast/node/node.cpp:111-117 | the pushes after sorting give the gaps between 0, the cuts and the target |
| NodeFind.FindSlot | src/ast/node/node.cpp:5-18 | returns the first unvisited slot of the kind in pre-order, or none, and records it when tracking |
| NodeFind.Find | src/ast/node/node.cpp:20-29 | the root itself when it has the kind; otherwise the first slot of the kind below it, or none |
| NodeFind.FindsAnyOfKind | src/ast/node/node.cpp:20-29 | a search from a fresh visited list finds a slot exactly when some slot holds the kind |
| NodeFind.TrackedSearchMovesOn | src/ast/node/node.cpp:9 | once the slot found is recorded, the next search does not return it again |
| NodeFind.FoundIsUnvisited | src/ast/node/node.cpp:9 | a search never returns a slot that was already visited |
| NodeFind.FirstHitAppend | src/ast/node/node.cpp:8-15 | searching two pieces in turn is searching the whole |
| Circuit.RegisterSize | src/ast/node/circuit.cpp:9-10 | the size is in [1, max_size] when max_size > 1, and exactly max_size otherwise |
| Circuit.ResourcesOfShape | include/ast/node/special_nodes/circuit.h:99-109 | a register of size n makes n resources with indices 0..n-1; a singular definition makes one; all carry the definition's name, scope and kind |
| Circuit.MakeResources | include/ast/node/special_nodes/register_resource_definition.h:66-72 | the loop makes new unused resources, one per index, as the reference says |
| Circuit.Resource.Reset | include/ast/node/special_nodes/resource.h:49-51 | the resource is no longer used |
| Circuit.PickInBounds | src/ast/node/circuit.cpp:89-98 | one round takes at least one and at most the remaining resources; when the grammar allows some kind of definition, the round makes one of a kind it allows (a register only when registers are allowed, a singular only when singulars are) |
| Circuit.PlanMeetsTarget | src/ast/node/circuit.cpp:84-103 | the definitions account for exactly the target, with no underflow, and are at most the number of draws |
| Circuit.PlanDefsShape | src/ast/node/circuit.cpp:12-52 | definition k has the loop's kind and scope, takes at least one resource, and is named "qreg"/"creg"/"qubit"/"bit" + its number |
| Circuit.PlanFails | src/ast/node/circuit.cpp:100-102 | the loop throws exactly when there is something to define and the grammar allows neither kind |
| Circuit.PlanNeverFails | src/ast/node/circuit.cpp:84-99 | if the grammar allows a kind, the loop never throws |
| Circuit.SingularOnlyPlan | src/ast/node/circuit.cpp:97-98 | with singular definitions only, the target is met one resource at a time |
| Circuit.RegisterOnlyFirst | src/ast/node/circuit.cpp:94-95 | with registers only, the first register takes between 1 and the whole target |
| Circuit.Circuit.constructor | include/ast/node/special_nodes/circuit.h:55-59 | a new circuit has no definitions and no resources |
| Circuit.Circuit.StoreDefinition | src/ast/node/circuit.cpp:19-20 | the definition's resources and the definition are appended to the collections of its kind |
| Circuit.Circuit.MakeRegisterResourceDefinition | src/ast/node/circuit.cpp:5-36 | defines one register of the drawn size named after the counter; returns the size and the counter plus one |
| Circuit.Circuit.MakeSingularResourceDefinition | src/ast/node/circuit.cpp:38-62 | defines one single resource named after the counter; returns 1 and the counter plus one |
| Circuit.Circuit.DefineOne | src/ast/node/circuit.cpp:89-102 | one round defines the reference pick, which accounts for between 1 and the remaining resources |
| Circuit.Circuit.MakeResourceDefinitions | src/ast/node/circuit.cpp:64-106 | on success, the definitions and resources of the kind grow by exactly the plan, and the number of definitions is returned; on a throw, nothing of the kind changes; the other kind is untouched |
| Circuit.Circuit.StoreResourceDef | include/ast/node/special_nodes/circuit.h:94-112 | the definition's resources go last among the resources, and the definition is appended exactly once |
| Circuit.Circuit.Reset | include/ast/node/special_nodes/circuit.h:114-118 | every resource is unused; the collections are unchanged |
| Circuit.GetCollOfKind | include/ast/node/special_nodes/circuit.h:88-92 | `get_coll(rk)` holds exactly the resources of kind rk, in order |
| Circuit.GetDefCollOfKind | include/ast/node/special_nodes/circuit.h:88-92 | the same for the definitions |
| Circuit.StoredKinds | include/ast/node/special_nodes/circuit.h:94-112 | storing a definition adds exactly its resources to its kind and nothing to the other kind |

## Left out

- File I/O, `ast.parse`, `ast.unparse` and `logging` are not modelled. A unit is its parsed body, or `None` when reading, parsing or a transformer raised. Unparsing is a function parameter. Writing the output file is not modelled.
- `QiskitMainTransformer` and `GuppyCircuitRenamer` are imported but not defined in the source. The transformer is opaque: each unit's transformed body and its `max_qubits`/`max_clbits` are given. `GuppyCircuitRenamer` is taken to be `CircuitRenamer`.
- An exception raised later in a unit's processing, after some of its effects, is not modelled. The modelled renamer never raises. A failing unit contributes nothing.
- The Python trees are values, so the renamer returns the renamed tree instead of mutating the node in place. Aliasing between nodes is not modelled.
- The scripts driver (`__main__`: random file selection, subprocess runs) and the rest of `lib/utils.py` are not modelled.
- `std::string` is modelled as a Dafny `string`, a sequence of Unicode characters, not of bytes. `isalpha`, `isdigit`, `isspace` and `tolower` work on single bytes, so a non-ASCII character would change lengths and positions in Utils.LowerAll, Utils.SafeStoul, Lexer.TokenOf and Lexer.GenericClassification. For ASCII text the results are the same.
- `std::regex` matching is a foreign library. Each line is given as its sequence of matched texts. The case-insensitive flag and `FULL_REGEX`'s own alternatives are not modelled.
- Random draws (`random_uint`, `random.randint`) are given as rolls or roll streams.
- Coll.GetRandomFromColl: reads a finite roll stream and returns none if no draw lands. The source loops until one does, forever when every element is used, as Coll.AllUsedNeverLands shows.
- Partition.DrawCutsLoop: the same for the cut loop, which never ends when the target is below the number of children.
- Node.Node.MakePartition: requires n_children >= 1, target < 2^31, and target >= 1 whenever there is more than one child. With one child the source sets `{target}` for any target, and so does the model. No file of this model shows the range of the caller's value: the `Nested_stmt` constructor at include/ast/node/special_nodes/nested_stmt.h:14-29 passes an unchecked unsigned count, and no shown code calls that constructor. A target of 0 or less with two or more children is excluded, because there `random_uint(target - 1, 1)` wraps around. A target of 2^31 or more is excluded, because converting the unsigned count to `int` is implementation-defined.
- Node.Node.MakeControlFlowPartition: the same requirement, for the same reasons.
- Node.Node.SetConstraint: requires at least as many occurrence counts as kinds. With fewer, the source reports the error and then reads past the end of the vector, which is undefined.
- Grammar.Grammar.Consume: requires that the cursor does not move past the end. A move past it in the source makes the later `tokens[token_pointer]` undefined.
- Grammar.Grammar.Peek: requires the cursor to be within the tokens, for the same reason.
- Node.Node.AddChild: requires that the child is not the node itself. The source does not check this.
- Grammar.DigToSyntax: the dig by variant, and Grammar.DigToSyntaxCorrected, carry a fuel bound. A chain of rules that loops never ends in the source, and the model returns none, or an error, when the fuel runs out.
- `build_grammar` is modelled only for its wildcard and bracketed-count steps and its cursor advance. The rest uses names that no file of this model defines: `is_meta` (src/grammar/grammar.cpp:138, :188 and :242), `UNIFORM` (src/grammar/grammar.cpp:220), a token kind `NAME` (in neither lex.h), and `Current::rule_decl_meta_func` (src/grammar/grammar.cpp:122 and :325; `struct Current` in include/grammar/grammar.h has no such field). So `add_term_to_current_branch`, `complete_rule`, `set_meta_func` and the meta-function constraints are not modelled.
- The grammar lexer follows the repository's root `lex.h`: its token table, its kinds and its inline `lex`. src/grammar/lex.cpp has the same loop, but it defines `Lexer::lex` out of line, which only include/grammar/lex.h declares. That header's token table and kinds are modelled separately, in `regex_lex.dfy`, and the two enumerations are not related.
- src/ast/node/circuit.cpp and include/ast/node/special_nodes/circuit.h come from different versions. The `.cpp` stores into `qubits`, `bits`, `qubit_defs` and `bit_defs`, which the header does not declare, while the header keeps `resources` and `resource_defs`. Circuit.Circuit carries both sets of fields. The definition loop fills the first set, `store_resource_def` and `reset` work on the second, and the model does not relate the two.
- `visited`, `Node::find_slot`'s declaration and `Node::get_kind` appear in no file of this model. NodeFind takes `visited` to test whether the slot is in the list, and, when tracking, to record the slot it accepts. `get_kind` is taken to return the node's kind.
- PyAst.Node: an unmodelled node kind is `Other(tag, children)`, which has no place for an `ast.arg`. The parameters of definitions the model does not spell out, such as `async def` or `class`, therefore never enter a scope, although `visit_arg` would add them to the innermost one.
- `get_resource_target` and `contains_rule` (whether the grammar allows register or singular definitions) are parameters of `make_resource_definitions`.
- Circuit.Circuit.MakeResourceDefinitions: requires at least one draw per resource to define. The counter of definitions is a `nat`, not an `unsigned int`.
- `owned_by`, `print_info`, `print`, `print_ast` and the dot-graph output are not modelled.
- `Term_constraint()` leaves `rand_min`, `rand_max`, `dependency` and `offset` uninitialised. The model gives them fixed values, which `resolve` never reads for NONE.
- `Result::get_ok` on an error value is undefined behaviour in the source. `consume(kind)` and `consume(val)` are modelled only while the current token is not an error.
- Utils.VectorSum: uses unbounded integers and does not model `int` overflow in the accumulator.
- Utils.VectorMax: the same. Its elements are unbounded integers.
- `pipe_to_command`, `pipe_from_command`, `render` and `random_hex_colour` are I/O and are not modelled.

## Findings

| source | as written | input that shows it | evidently intended | confidence | as-written member | corrected member |
|---|---|---|---|---|---|---|
| src/utils/utils.cpp:157-168 | the `switch` has no `default`, so every character other than `\n`, `\t`, `\r` and `\\` is dropped | `escape_string("a")` returns `""` | ordinary characters are copied to the output, so that unescaping gives the input back | not executed | Utils.EscapeAsWrittenLosesText | Utils.UnescapeEscape |
| lex.h:632-637 | `is_kind_of_rule` compares with `SPECIAL_RULE_KINDS_TOP` on both sides, so it is false for every kind, even `RULE`. `build_grammar` then never takes a rule name as a term, and `dig_to_syntax` never follows a rule term | `is_kind_of_rule(RULE)` is false, so in the grammar `a = b;` the token `b` fails the test at src/grammar/grammar.cpp:246 and, unless `is_meta(RULE)` holds, reaches `throw "Unknown token"` at src/grammar/grammar.cpp:346; and for a table holding `a = b; b = "x";` the dig of `a` throws `bad_variant_access` | true for the kinds of rule names: `RULE` to `BARRIER` and `REGISTER_RESOURCE` to `RESOURCE_DEF`; not for `SYNTAX`, which src/grammar/grammar.cpp:246 tests on its own, nor for the grammar-language kinds between the markers, which later branches of `build_grammar` handle | not executed | Lexer.NoKindIsRuleAsWritten | Grammar.DigCorrectedFollowsRuleTerms |

/** The generator's own assembler: the capture-convention module of the library assembler,
    followed by the two statements that hand the master `main` to the differential tester
    under the run's unique index. */
module LlmAssembler {
  import opened Wrappers
  import opened Text
  import opened PyAst
  import opened Assembly
  import opened GuppyMaster
  import opened GuppyAssembly

  /** The module `assemble` writes. */
  function LlmModule(unparse: Node -> string, files: seq<Option<seq<Node>>>, uniqueIndex: int): seq<Node>
  {
    GuppyModule(unparse, files) + DiffTestStatements(uniqueIndex)
  }

  /** The module opens with the harness import, ends with `gt = guppyTesting()` and
      `gt.ks_diff_test(main, unique_index)`, and just before them stands the zero-argument
      `@guppy` master `main` whose body is `pass` exactly when no unit defines `main`. */
  lemma LlmModuleShape(unparse: Node -> string, files: seq<Option<seq<Node>>>, uniqueIndex: int)
    ensures var m := LlmModule(unparse, files, uniqueIndex);
            |m| >= 4
            && m[0] == Import(HarnessText("guppyTesting"))
            && m[|m| - 2] == Assign([Name("gt", Store)], CallNamed("guppyTesting", []))
            && m[|m| - 1] == Expr(Call(Attribute(LoadName("gt"), "ks_diff_test"),
                                       [LoadName("main"), Constant(IntConst(uniqueIndex))], []))
            && m[|m| - 3].FunctionDef? && m[|m| - 3].name == "main"
            && m[|m| - 3].args == NoArguments && m[|m| - 3].decorators == [LoadName("guppy")]
            && (m[|m| - 3].body == [Pass]
                <==> forall i :: 0 <= i < |files| && files[i].Some? ==> "main" !in TopLevelDefNames(files[i].value))
  {
    var g := GuppyModule(unparse, files);
    GuppyModuleEnds(unparse, files);
    GuppyPassIffNoMain(unparse, files);
    TrailerEnds(g, DiffTestStatements(uniqueIndex));
  }

  /** Positions in a module made of at least two statements and the two-statement trailer. */
  lemma TrailerEnds(g: seq<Node>, tail: seq<Node>)
    requires |g| >= 2 && |tail| == 2
    ensures var m := g + tail;
            |m| >= 4 && m[0] == g[0] && m[|m| - 3] == g[|g| - 1]
            && m[|m| - 2] == tail[0] && m[|m| - 1] == tail[1]
  {
  }

  /** `assemble`, up to writing the unparsed module. */
  method Assemble(unparse: Node -> string, files: seq<Option<seq<Node>>>, uniqueIndex: int) returns (output: seq<Node>)
    ensures output == LlmModule(unparse, files, uniqueIndex)
  {
    output := AssembleGuppy(unparse, files);
    var gtAssign := Assign([Name("gt", Store)], CallNamed("guppyTesting", []));
    output := output + [gtAssign];
    var diffTestCall := Expr(Call(Attribute(LoadName("gt"), "ks_diff_test"), [LoadName("main"), Constant(IntConst(uniqueIndex))], []));
    output := output + [diffTestCall];
  }
}

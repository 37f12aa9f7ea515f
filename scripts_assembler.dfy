/** The stand-alone script assembler: the same unit loop, import section and renamed
    bodies as the capture-convention assembler, but its `@guppy` master `main` calls every
    unit's `c{i}_main` with no arguments, and the module ends with the differential-test
    call. A unit contributes a call exactly when it defines `main` at top level. */
module ScriptAssembler {
  import opened Wrappers
  import opened Text
  import opened PyAst
  import opened Renaming
  import opened Assembly
  import opened GuppyAssembly

  /** The names of the entry routines the master calls, in unit order. */
  function ScriptMains(files: seq<Option<seq<Node>>>): seq<string>
  {
    if files == [] then []
    else
      var i := |files| - 1;
      ScriptMains(files[..i])
      + (if files[i].Some? && "main" in TopLevelDefNames(files[i].value) then [UnitPrefix(i) + "main"] else [])
  }

  /** `m_name()` for every name. */
  function MasterCalls(names: seq<string>): (calls: seq<Node>)
    ensures |calls| == |names|
  {
    seq(|names|, k requires 0 <= k < |names| => Expr(Call(LoadName(names[k]), [], [])))
  }

  function ScriptMasterBody(names: seq<string>): seq<Node>
  {
    if names == [] then [Pass] else MasterCalls(names)
  }

  /** The module `assemble` writes. */
  function ScriptModule(unparse: Node -> string, files: seq<Option<seq<Node>>>, uniqueIndex: int): seq<Node>
  {
    var imports := GuppyImports(files);
    ImportNodes(imports.0)
    + (if HasGuppy(imports.1) then [EnableStatement] else [])
    + GuppyBodies(unparse, files)
    + [GuppyMasterDef(ScriptMasterBody(ScriptMains(files)))]
    + DiffTestStatements(uniqueIndex)
  }

  /** The master calls exactly the routines the capture-convention assembler feeds: the
      `k`-th name is the name of the `k`-th renamed entry routine. */
  lemma {:induction false} ScriptMainsAreEntryNames(files: seq<Option<seq<Node>>>)
    ensures |ScriptMains(files)| == |EntryRoutines(files)|
    ensures forall k :: 0 <= k < |ScriptMains(files)| ==>
              EntryRoutines(files)[k].FunctionDef? && ScriptMains(files)[k] == EntryRoutines(files)[k].name
  {
    if files != [] {
      var i := |files| - 1;
      ScriptMainsAreEntryNames(files[..i]);
      if files[i].Some? && "main" in TopLevelDefNames(files[i].value) {
        var tree := files[i].value;
        var m := FirstDefNamed(tree, "main");
        assert m.Some?;
        RenameKeepsDefs(Env(UnitPrefix(i), TopLevelDefNames(tree)), [], m.value);
      }
    }
  }

  /** Unit `i` was read and defines `main` at top level. */
  predicate DefinesMain(files: seq<Option<seq<Node>>>, i: nat)
  {
    i < |files| && files[i].Some? && "main" in TopLevelDefNames(files[i].value)
  }

  /** A name is called exactly when it is `c{i}_main` for a read unit `i` defining `main`. */
  lemma {:induction false} ScriptMainsMembers(files: seq<Option<seq<Node>>>)
    ensures forall name :: name in ScriptMains(files) <==> exists i: nat :: DefinesMain(files, i) && name == UnitPrefix(i) + "main"
  {
    if files != [] {
      var n := |files| - 1;
      var init := files[..n];
      ScriptMainsMembers(init);
      var prev := ScriptMains(init);
      assert ScriptMains(files) == prev + (if DefinesMain(files, n) then [UnitPrefix(n) + "main"] else []);
      forall name | name in ScriptMains(files)
        ensures exists i: nat :: DefinesMain(files, i) && name == UnitPrefix(i) + "main"
      {
        if name in prev {
          var i: nat :| DefinesMain(init, i) && name == UnitPrefix(i) + "main";
          assert DefinesMain(files, i);
        } else {
          assert DefinesMain(files, n) && name == UnitPrefix(n) + "main";
        }
      }
      forall i: nat | DefinesMain(files, i)
        ensures UnitPrefix(i) + "main" in ScriptMains(files)
      {
        if i < n {
          assert DefinesMain(init, i);
        }
      }
    }
  }

  /** The called names are pairwise different. */
  lemma {:induction false} ScriptMainsDistinct(files: seq<Option<seq<Node>>>)
    ensures forall j, k :: 0 <= j < k < |ScriptMains(files)| ==> ScriptMains(files)[j] != ScriptMains(files)[k]
  {
    if files != [] {
      var n := |files| - 1;
      var init := files[..n];
      ScriptMainsDistinct(init);
      var prev := ScriptMains(init);
      if DefinesMain(files, n) {
        ScriptMainsMembers(init);
        var names := ScriptMains(files);
        assert names == prev + [UnitPrefix(n) + "main"];
        forall j | 0 <= j < |prev|
          ensures prev[j] != UnitPrefix(n) + "main"
        {
          assert prev[j] in prev;
          var i: nat :| DefinesMain(init, i) && prev[j] == UnitPrefix(i) + "main";
          if prev[j] == UnitPrefix(n) + "main" {
            UnitPrefixesDistinct(i, n, "main", "main");
          }
        }
        forall j, k | 0 <= j < k < |names|
          ensures names[j] != names[k]
        {
          if k < |prev| {
            assert names[j] == prev[j] && names[k] == prev[k];
          } else {
            assert names[j] == prev[j];
          }
        }
      }
    }
  }

  /** The master body is a lone `pass` exactly when no read unit defines `main` at top level. */
  lemma ScriptPassIffNoMain(files: seq<Option<seq<Node>>>)
    ensures ScriptMasterBody(ScriptMains(files)) == [Pass]
        <==> forall i :: 0 <= i < |files| && files[i].Some? ==> "main" !in TopLevelDefNames(files[i].value)
  {
    ScriptMainsAreEntryNames(files);
    EntryRoutinesEmpty(files);
    var names := ScriptMains(files);
    if names != [] {
      assert ScriptMasterBody(names)[0] == Expr(Call(LoadName(names[0]), [], []));
    }
  }

  /** The module opens with the harness import and ends with the master `main` followed by
      `gt = guppyTesting()` and `gt.ks_diff_test(main, unique_index)`. */
  lemma ScriptModuleShape(unparse: Node -> string, files: seq<Option<seq<Node>>>, uniqueIndex: int)
    ensures var m := ScriptModule(unparse, files, uniqueIndex);
            |m| >= 4
            && m[0] == Import(GuppyHarness())
            && m[|m| - 3] == GuppyMasterDef(ScriptMasterBody(ScriptMains(files)))
            && m[|m| - 2..] == DiffTestStatements(uniqueIndex)
  {
    GuppyImportSection(files);
    var imports := GuppyImports(files).0;
    assert ImportNodes(imports)[0] == Import(GuppyHarness());
  }

  /** The master loop: one argument-less call per collected name, or `pass`. */
  method BuildScriptMaster(mainFuncs: seq<string>) returns (mainBody: seq<Node>)
    ensures mainBody == ScriptMasterBody(mainFuncs)
  {
    mainBody := [];
    if |mainFuncs| > 0 {
      var k := 0;
      while k < |mainFuncs|
        invariant 0 <= k <= |mainFuncs|
        invariant mainBody == MasterCalls(mainFuncs[..k])
      {
        mainBody := mainBody + [Expr(Call(LoadName(mainFuncs[k]), [], []))];
        k := k + 1;
      }
      assert mainFuncs[..|mainFuncs|] == mainFuncs;
    } else {
      mainBody := mainBody + [Pass];
    }
  }

  /** `assemble`, up to writing the unparsed module. */
  method Assemble(unparse: Node -> string, files: seq<Option<seq<Node>>>, uniqueIndex: int) returns (output: seq<Node>)
    ensures output == ScriptModule(unparse, files, uniqueIndex)
  {
    var allImports, seenImports := [GuppyHarness()], {GuppyHarness()};
    var renamedBodies: seq<Node> := [];
    var mainFuncs: seq<string> := [];
    var i := 0;
    while i < |files|
      invariant 0 <= i <= |files|
      invariant (allImports, seenImports) == ImportsAfter([GuppyHarness()], {GuppyHarness()}, files[..i])
      invariant renamedBodies == GuppyBodies(unparse, files[..i])
      invariant mainFuncs == ScriptMains(files[..i])
    {
      assert files[..i + 1][..i] == files[..i];
      if files[i].Some? {
        var tree := files[i].value;
        var prefix := UnitPrefix(i);
        var globals := CollectGlobals(tree);
        var topLevel;
        allImports, seenImports, topLevel := SplitImports(tree, allImports, seenImports);
        var newNodes := RenameUnit(unparse, prefix, globals, topLevel);
        renamedBodies := renamedBodies + newNodes;
        if "main" in globals {
          mainFuncs := mainFuncs + [prefix + "main"];
        }
      }
      i := i + 1;
    }
    assert files[..|files|] == files;
    output := ImportNodes(allImports);
    if HasGuppy(seenImports) {
      output := output + [EnableStatement];
    }
    output := output + renamedBodies;
    var mainBody := BuildScriptMaster(mainFuncs);
    output := output + [GuppyMasterDef(mainBody)];
    output := output + DiffTestStatements(uniqueIndex);
  }
}

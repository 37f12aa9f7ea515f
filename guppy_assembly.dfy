/** The unit loop shared by the guppy assemblers: for every unit that could be read and
    parsed, collect its global names, deduplicate its imports against everything seen so
    far, rename its remaining statements with the unit's prefix and remember its entry
    routine `c{i}_main`. A unit that fails to read or parse (`None`) is skipped and has no
    effect, but it still uses up its index. */
module GuppyAssembly {
  import opened Wrappers
  import opened Text
  import opened PyAst
  import opened Renaming
  import opened Assembly
  import opened GuppyMaster

  /** The import text the assemblers add first and pre-seed as seen. */
  function GuppyHarness(): string { HarnessText("guppyTesting") }

  /** Kept import texts and the seen set after all units. */
  function GuppyImports(files: seq<Option<seq<Node>>>): (seq<string>, set<string>)
  {
    ImportsAfter([GuppyHarness()], {GuppyHarness()}, files)
  }

  /** The renamed statements of all units, in unit order. */
  function GuppyBodies(unparse: Node -> string, files: seq<Option<seq<Node>>>): seq<Node>
  {
    if files == [] then []
    else
      var i := |files| - 1;
      GuppyBodies(unparse, files[..i]) + (if files[i].Some? then GuppyUnitBody(unparse, i, files[i].value) else [])
  }

  /** The entry routines found by searching each unit's renamed statements for `c{i}_main`. */
  function GuppyMains(unparse: Node -> string, files: seq<Option<seq<Node>>>): (mains: seq<Node>)
    ensures AllDefs(mains)
  {
    if files == [] then []
    else
      var i := |files| - 1;
      var entry := if files[i].Some? then FirstDefNamed(GuppyUnitBody(unparse, i, files[i].value), UnitPrefix(i) + "main") else None;
      GuppyMains(unparse, files[..i]) + (if entry.Some? then [entry.value] else [])
  }

  /** The reference: for every read unit that defines `main` at top level, its first such
      definition renamed with the unit's prefix and global names. */
  function EntryRoutines(files: seq<Option<seq<Node>>>): seq<Node>
  {
    if files == [] then []
    else
      var i := |files| - 1;
      EntryRoutines(files[..i])
      + (if files[i].Some? && "main" in TopLevelDefNames(files[i].value)
         then [RenameNode(Env(UnitPrefix(i), TopLevelDefNames(files[i].value)), [], FirstDefNamed(files[i].value, "main").value).0]
         else [])
  }

  /** The module `assemble_guppy` writes: imports, the feature switch when a `guppylang`
      import was seen, the renamed bodies, and the master `main`. */
  function GuppyModule(unparse: Node -> string, files: seq<Option<seq<Node>>>): seq<Node>
  {
    var imports := GuppyImports(files);
    ImportNodes(imports.0)
    + (if HasGuppy(imports.1) then [EnableStatement] else [])
    + GuppyBodies(unparse, files)
    + [GuppyMasterDef(MasterBody(GuppyMains(unparse, files)))]
  }

  /** The entry routines collected are exactly the renamed first `main` of each unit that
      defines one, in unit order: the expression filter never drops a definition. */
  lemma {:induction false} GuppyMainsAreEntryRoutines(unparse: Node -> string, files: seq<Option<seq<Node>>>)
    ensures GuppyMains(unparse, files) == EntryRoutines(files)
  {
    if files != [] {
      var i := |files| - 1;
      GuppyMainsAreEntryRoutines(unparse, files[..i]);
      if files[i].Some? {
        EntryOfUnit(unparse, i, files[i].value);
      }
    }
  }

  /** The import section is the harness import followed by the first occurrence of every
      other import text, in unit order then source order, with no text twice; the seen set
      is exactly the harness text and every unit's import texts. */
  lemma GuppyImportSection(files: seq<Option<seq<Node>>>)
    ensures GuppyImports(files).0 == [GuppyHarness()] + FirstOccurrences({GuppyHarness()}, AllImportTexts(files))
    ensures NoDuplicates(GuppyImports(files).0)
    ensures GuppyImports(files).1 == {GuppyHarness()} + SetOf(AllImportTexts(files))
  {
    var h := GuppyHarness();
    ImportsAfterIsFirstOccurrences([h], {h}, files);
    var fo := FirstOccurrences({h}, AllImportTexts(files));
    FirstOccurrencesSpec({h}, AllImportTexts(files));
    var all := [h] + fo;
    forall j, k | 0 <= j < k < |all|
      ensures all[j] != all[k]
    {
      if j == 0 {
        assert all[k] == fo[k - 1];
        assert fo[k - 1] in SetOf(fo);
      } else {
        assert all[j] == fo[j - 1] && all[k] == fo[k - 1];
      }
    }
  }

  /** `enable_experimental_features()` is emitted exactly when some unit's import text
      mentions `guppylang`; the pre-seeded harness import never counts. */
  lemma EnableIffGuppylangImport(files: seq<Option<seq<Node>>>)
    ensures HasGuppy(GuppyImports(files).1) <==> HasGuppy(SetOf(AllImportTexts(files)))
  {
    GuppyImportSection(files);
    HarnessIsNotGuppylang(SetOf(AllImportTexts(files)));
  }

  /** The module opens with the harness import and closes with the master `main` over the
      collected entry routines. */
  lemma GuppyModuleEnds(unparse: Node -> string, files: seq<Option<seq<Node>>>)
    ensures var g := GuppyModule(unparse, files);
            |g| >= 2 && g[0] == Import(GuppyHarness())
            && g[|g| - 1] == GuppyMasterDef(MasterBody(GuppyMains(unparse, files)))
  {
    var imports := GuppyImports(files);
    var head := ImportNodes(imports.0);
    assert |head| >= 1 && head[0] == Import(GuppyHarness()) by {
      GuppyImportSection(files);
    }
    HeadAndLast(head, (if HasGuppy(imports.1) then [EnableStatement] else []) + GuppyBodies(unparse, files),
                GuppyMasterDef(MasterBody(GuppyMains(unparse, files))));
  }

  lemma HeadAndLast(head: seq<Node>, middle: seq<Node>, last: Node)
    requires |head| >= 1
    ensures var g := head + middle + [last];
            |g| >= 2 && g[0] == head[0] && g[|g| - 1] == last
  {
  }

  /** The master body is a lone `pass` exactly when no read unit defines `main` at top level. */
  lemma {:induction false} GuppyPassIffNoMain(unparse: Node -> string, files: seq<Option<seq<Node>>>)
    ensures MasterBody(GuppyMains(unparse, files)) == [Pass]
        <==> forall i :: 0 <= i < |files| && files[i].Some? ==> "main" !in TopLevelDefNames(files[i].value)
  {
    GuppyMainsAreEntryRoutines(unparse, files);
    MasterPassIffNoEntries(GuppyMains(unparse, files));
    EntryRoutinesEmpty(files);
  }

  lemma {:induction false} EntryRoutinesEmpty(files: seq<Option<seq<Node>>>)
    ensures EntryRoutines(files) == []
        <==> forall i :: 0 <= i < |files| && files[i].Some? ==> "main" !in TopLevelDefNames(files[i].value)
  {
    if files != [] {
      var n := |files| - 1;
      EntryRoutinesEmpty(files[..n]);
      if EntryRoutines(files) == [] {
        forall i | 0 <= i < |files| && files[i].Some?
          ensures "main" !in TopLevelDefNames(files[i].value)
        {
          if i < n { assert files[..n][i] == files[i]; }
        }
      } else if files[n].Some? && "main" in TopLevelDefNames(files[n].value) {
      } else {
        var i :| 0 <= i < n && files[..n][i].Some? && "main" in TopLevelDefNames(files[..n][i].value);
        assert files[i] == files[..n][i];
      }
    }
  }

  /** The unit loop of the guppy assemblers. */
  method CollectGuppyUnits(unparse: Node -> string, files: seq<Option<seq<Node>>>)
    returns (imports: seq<string>, seen: set<string>, bodies: seq<Node>, mains: seq<Node>)
    ensures (imports, seen) == GuppyImports(files)
    ensures bodies == GuppyBodies(unparse, files)
    ensures mains == GuppyMains(unparse, files)
  {
    imports, seen := [GuppyHarness()], {GuppyHarness()};
    bodies, mains := [], [];
    var i := 0;
    while i < |files|
      invariant 0 <= i <= |files|
      invariant (imports, seen) == ImportsAfter([GuppyHarness()], {GuppyHarness()}, files[..i])
      invariant bodies == GuppyBodies(unparse, files[..i])
      invariant mains == GuppyMains(unparse, files[..i])
    {
      assert files[..i + 1][..i] == files[..i];
      if files[i].Some? {
        var tree := files[i].value;
        var prefix := UnitPrefix(i);
        var globals := CollectGlobals(tree);
        var topLevel;
        imports, seen, topLevel := SplitImports(tree, imports, seen);
        var newNodes := RenameUnit(unparse, prefix, globals, topLevel);
        bodies := bodies + newNodes;
        var entry := FindEntry(newNodes, prefix);
        if entry.Some? {
          mains := mains + [entry.value];
        }
      }
      i := i + 1;
    }
    assert files[..|files|] == files;
  }

  /** Everything `assemble_guppy` puts in the module: the unit loop, the import section,
      the feature switch, the renamed bodies and the master `main`. */
  method AssembleGuppy(unparse: Node -> string, files: seq<Option<seq<Node>>>) returns (output: seq<Node>)
    ensures output == GuppyModule(unparse, files)
  {
    var allImports, seenImports, renamedBodies, mainFuncs := CollectGuppyUnits(unparse, files);
    output := ImportNodes(allImports);
    if HasGuppy(seenImports) {
      output := output + [EnableStatement];
    }
    output := output + renamedBodies;
    var mainBody := BuildMasterBody(mainFuncs);
    output := output + [GuppyMasterDef(mainBody)];
  }
}

/** The library assembler: `assemble` dispatches on the language to the shared-register
    assembler for qiskit units or to the capture-convention assembler for guppy units. */
module LibAssembler {
  import opened Wrappers
  import opened Text
  import opened PyAst
  import opened Renaming
  import opened Assembly
  import opened GuppyMaster
  import opened GuppyAssembly

  /** A qiskit unit after the main-function transformer ran over it: the transformed body
      and the register sizes the transformer found its `main` to need. The transformer
      itself is not part of this model. */
  datatype QiskitUnit = QiskitUnit(body: seq<Node>, maxQubits: int, maxClbits: int)

  /** One input file: what reading and parsing it gives for each language; `None` where
      reading, parsing or transforming raised. */
  datatype SourceFile = SourceFile(guppy: Option<seq<Node>>, qiskit: Option<QiskitUnit>)

  function QiskitHarness(): string { HarnessText("qiskitTesting") }

  // ---------------------------------------------------------------------------
  // Shared-register convention

  /** `if __name__ … :` with a comparison test whose left side is the name `__name__`. */
  predicate IsMainGuard(n: Node)
  {
    n.If? && n.test.Compare? && n.test.left.Name? && n.test.left.id == "__name__"
  }

  /** A bare top-level call `main(…)`. */
  predicate IsMainCall(n: Node)
  {
    n.Expr? && n.value.Call? && n.value.func.Name? && n.value.func.id == "main"
  }

  /** What the qiskit second pass keeps for renaming. */
  predicate QiskitKeeps(n: Node)
  {
    !n.Import? && !IsMainGuard(n) && !IsMainCall(n)
  }

  /** The statements the qiskit second pass keeps, in source order. */
  function QiskitTopLevel(tree: seq<Node>): (r: seq<Node>)
    ensures |r| <= |tree|
    ensures forall n :: n in r <==> n in tree && QiskitKeeps(n)
  {
    if tree == [] then []
    else
      var n := tree[|tree| - 1];
      QiskitTopLevel(tree[..|tree| - 1]) + (if n.Import? || IsMainGuard(n) || IsMainCall(n) then [] else [n])
  }

  /** Every kept statement visited by the unit's renamer. */
  function RenameAll(env: Env, nodes: seq<Node>): (r: seq<Node>)
    ensures |r| == |nodes|
  {
    if nodes == [] then [] else RenameAll(env, nodes[..|nodes| - 1]) + [RenameNode(env, [], nodes[|nodes| - 1]).0]
  }

  function QiskitUnitBody(i: nat, tree: seq<Node>): seq<Node>
  {
    RenameAll(Env(UnitPrefix(i), TopLevelDefNames(tree)), QiskitTopLevel(tree))
  }

  function QiskitTrees(units: seq<Option<QiskitUnit>>): (trees: seq<Option<seq<Node>>>)
    ensures |trees| == |units|
  {
    seq(|units|, k requires 0 <= k < |units| => if units[k].Some? then Some(units[k].value.body) else None)
  }

  function QiskitBodies(units: seq<Option<QiskitUnit>>): seq<Node>
  {
    if units == [] then []
    else
      var i := |units| - 1;
      QiskitBodies(units[..i]) + (if units[i].Some? then QiskitUnitBody(i, units[i].value.body) else [])
  }

  /** `c{i}_main(qc, qr, cr)`. */
  function MainCall(i: nat): Node
  {
    Expr(Call(LoadName(UnitPrefix(i) + "main"), [LoadName("qc"), LoadName("qr"), LoadName("cr")], []))
  }

  /** One call per processed unit, in unit order, whether or not the unit defines `main`. */
  function QiskitCalls(units: seq<Option<QiskitUnit>>): (calls: seq<Node>)
    ensures forall k :: 0 <= k < |calls| ==> calls[k].Expr?
  {
    if units == [] then []
    else
      var i := |units| - 1;
      QiskitCalls(units[..i]) + (if units[i].Some? then [MainCall(i)] else [])
  }

  /** The running maximum of the requests of the processed units, starting from 1. */
  function Pool(requests: seq<Option<int>>): int
  {
    if requests == [] then 1
    else
      var r := requests[|requests| - 1];
      var prev := Pool(requests[..|requests| - 1]);
      if r.Some? then (if prev >= r.value then prev else r.value) else prev
  }

  function QubitRequests(units: seq<Option<QiskitUnit>>): seq<Option<int>>
  {
    seq(|units|, k requires 0 <= k < |units| => if units[k].Some? then Some(units[k].value.maxQubits) else None)
  }

  function ClbitRequests(units: seq<Option<QiskitUnit>>): seq<Option<int>>
  {
    seq(|units|, k requires 0 <= k < |units| => if units[k].Some? then Some(units[k].value.maxClbits) else None)
  }

  /** `name = Register(size, label)`. */
  function RegisterInit(name: string, register: string, size: int, tag: string): Node
  {
    Assign([Name(name, Store)], CallNamed(register, [Constant(IntConst(size)), Constant(StrConst(tag))]))
  }

  function QiskitMasterBody(units: seq<Option<QiskitUnit>>): seq<Node>
  {
    var calls := QiskitCalls(units);
    [RegisterInit("qr", "QuantumRegister", Pool(QubitRequests(units)), "q"),
     RegisterInit("cr", "ClassicalRegister", Pool(ClbitRequests(units)), "c"),
     Assign([Name("qc", Store)], CallNamed("QuantumCircuit", [LoadName("qr"), LoadName("cr")]))]
    + (if calls == [] then [Pass] else calls)
    + [Return(Some(LoadName("qc")))]
  }

  /** The module `assemble_qiskit` writes. */
  function QiskitModule(units: seq<Option<QiskitUnit>>): seq<Node>
  {
    ImportNodes(ImportsAfter([QiskitHarness()], {}, QiskitTrees(units)).0)
    + QiskitBodies(units)
    + [FunctionDef("main", NoArguments, QiskitMasterBody(units), [], None)]
  }

  /** The pool is the larger of 1 and every processed unit's request, and is 1 or one of those requests. */
  lemma {:induction false} PoolIsMaxOfOneAndRequests(requests: seq<Option<int>>)
    ensures Pool(requests) >= 1
    ensures forall k :: 0 <= k < |requests| && requests[k].Some? ==> Pool(requests) >= requests[k].value
    ensures Pool(requests) == 1 || exists k :: 0 <= k < |requests| && requests[k] == Some(Pool(requests))
  {
    if requests != [] {
      var n := |requests| - 1;
      var init := requests[..n];
      PoolIsMaxOfOneAndRequests(init);
      forall k | 0 <= k < n && requests[k].Some?
        ensures Pool(requests) >= requests[k].value
      {
        assert init[k] == requests[k];
      }
      if Pool(requests) != 1 && Pool(requests) == Pool(init) {
        var k :| 0 <= k < n && init[k] == Some(Pool(init));
        assert requests[k] == init[k];
      }
    }
  }

  /** There is a call to a unit's routine exactly when that unit was processed. */
  lemma {:induction false} QiskitCallsMembers(units: seq<Option<QiskitUnit>>)
    ensures forall c :: c in QiskitCalls(units) <==> exists i :: 0 <= i < |units| && units[i].Some? && c == MainCall(i)
  {
    if units != [] {
      var n := |units| - 1;
      var init := units[..n];
      QiskitCallsMembers(init);
      var prev := QiskitCalls(init);
      forall c | c in QiskitCalls(units)
        ensures exists i :: 0 <= i < |units| && units[i].Some? && c == MainCall(i)
      {
        if c in prev {
          var i :| 0 <= i < |init| && init[i].Some? && c == MainCall(i);
          assert units[i] == init[i];
        }
      }
      forall c | exists i :: 0 <= i < |units| && units[i].Some? && c == MainCall(i)
        ensures c in QiskitCalls(units)
      {
        var i :| 0 <= i < |units| && units[i].Some? && c == MainCall(i);
        if i < n {
          assert init[i] == units[i];
        }
      }
    }
  }

  /** The calls name pairwise different routines. */
  lemma {:induction false} QiskitCallsDistinct(units: seq<Option<QiskitUnit>>)
    ensures forall j, k :: 0 <= j < k < |QiskitCalls(units)| ==> QiskitCalls(units)[j] != QiskitCalls(units)[k]
  {
    if units != [] {
      var n := |units| - 1;
      var init := units[..n];
      QiskitCallsDistinct(init);
      var prev := QiskitCalls(init);
      if units[n].Some? {
        assert MainCall(n) !in prev by {
          QiskitCallsMembers(init);
          if MainCall(n) in prev {
            var i :| 0 <= i < |init| && init[i].Some? && MainCall(n) == MainCall(i);
            UnitPrefixesDistinct(i, n, "main", "main");
          }
        }
        SnocDistinct(prev, MainCall(n));
      }
    }
  }

  /** Appending a new element keeps a list free of repeats. */
  lemma SnocDistinct(prev: seq<Node>, x: Node)
    requires forall j, k :: 0 <= j < k < |prev| ==> prev[j] != prev[k]
    requires x !in prev
    ensures forall j, k :: 0 <= j < k < |prev + [x]| ==> (prev + [x])[j] != (prev + [x])[k]
  {
    forall j, k | 0 <= j < k < |prev + [x]|
      ensures (prev + [x])[j] != (prev + [x])[k]
    {
      if k == |prev| {
        assert prev[j] in prev;
      }
    }
  }

  /** The master body: the three register statements sized by the pools, then a `pass`
      exactly when no unit was processed (otherwise only calls), then `return qc`. */
  lemma QiskitMasterShape(units: seq<Option<QiskitUnit>>)
    ensures var body := QiskitMasterBody(units);
            |body| >= 5
            && body[0] == RegisterInit("qr", "QuantumRegister", Pool(QubitRequests(units)), "q")
            && body[1] == RegisterInit("cr", "ClassicalRegister", Pool(ClbitRequests(units)), "c")
            && body[|body| - 1] == Return(Some(LoadName("qc")))
            && (Pass in body[3..|body| - 1] <==> forall i :: 0 <= i < |units| ==> units[i].None?)
  {
    QiskitCallsEmpty(units);
    var calls := QiskitCalls(units);
    var body := QiskitMasterBody(units);
    if calls == [] {
      assert body[3..|body| - 1] == [Pass];
    } else {
      assert body[3..|body| - 1] == calls;
    }
  }

  /** No call at all exactly when no unit was processed. */
  lemma QiskitCallsEmpty(units: seq<Option<QiskitUnit>>)
    ensures QiskitCalls(units) == [] <==> forall i :: 0 <= i < |units| ==> units[i].None?
  {
    QiskitCallsMembers(units);
    var calls := QiskitCalls(units);
    if calls != [] {
      assert calls[0] in calls;
    }
    forall i | 0 <= i < |units| && units[i].Some?
      ensures MainCall(i) in calls
    {
    }
  }

  /** Only the units' imports are deduplicated: the harness import is not pre-seeded, so it
      comes first and the rest are the first occurrences of every unit import text. */
  lemma QiskitImportSection(units: seq<Option<QiskitUnit>>)
    ensures var unitImports := FirstOccurrences({}, AllImportTexts(QiskitTrees(units)));
            ImportsAfter([QiskitHarness()], {}, QiskitTrees(units)).0 == [QiskitHarness()] + unitImports
            && NoDuplicates(unitImports)
            && SetOf(unitImports) == SetOf(AllImportTexts(QiskitTrees(units)))
  {
    ImportsAfterIsFirstOccurrences([QiskitHarness()], {}, QiskitTrees(units));
    FirstOccurrencesSpec({}, AllImportTexts(QiskitTrees(units)));
  }

  /** The qiskit second pass: deduplicate imports, drop `__name__` guards and bare `main()`
      calls, keep the rest for renaming. */
  method SplitQiskit(tree: seq<Node>, imports0: seq<string>, seen0: set<string>)
    returns (imports: seq<string>, seen: set<string>, topLevel: seq<Node>)
    ensures (imports, seen) == DedupImports(imports0, seen0, tree)
    ensures topLevel == QiskitTopLevel(tree)
  {
    imports, seen, topLevel := imports0, seen0, [];
    var k := 0;
    while k < |tree|
      invariant 0 <= k <= |tree|
      invariant (imports, seen) == DedupImports(imports0, seen0, tree[..k])
      invariant topLevel == QiskitTopLevel(tree[..k])
    {
      assert tree[..k + 1][..k] == tree[..k];
      var node := tree[k];
      k := k + 1;
      if node.Import? {
        var codeStr := node.text;
        if codeStr !in seen {
          seen := seen + {codeStr};
          imports := imports + [codeStr];
        }
        continue;
      }
      if node.If? && node.test.Compare? {
        if node.test.left.Name? && node.test.left.id == "__name__" {
          continue;
        }
      }
      if node.Expr? && node.value.Call? {
        if node.value.func.Name? && node.value.func.id == "main" {
          continue;
        }
      }
      topLevel := topLevel + [node];
    }
    assert tree[..|tree|] == tree;
  }

  /** The qiskit renaming loop: every kept statement is visited by one renamer per unit. */
  method RenameQiskitUnit(prefix: string, globals: set<string>, topLevel: seq<Node>) returns (newNodes: seq<Node>)
    ensures newNodes == RenameAll(Env(prefix, globals), topLevel)
  {
    var renamer := new CircuitRenamer(prefix, globals);
    newNodes := [];
    var k := 0;
    while k < |topLevel|
      invariant 0 <= k <= |topLevel|
      invariant renamer.prefix == prefix && renamer.globalFuncs == globals && renamer.localScopes == []
      invariant newNodes == RenameAll(Env(prefix, globals), topLevel[..k])
    {
      assert topLevel[..k + 1][..k] == topLevel[..k];
      var newNode := renamer.Visit(topLevel[k]);
      newNodes := newNodes + [newNode];
      k := k + 1;
    }
    assert topLevel[..|topLevel|] == topLevel;
  }

  /** One more unit processed: each running value takes that unit's contribution. */
  lemma QiskitStep(units: seq<Option<QiskitUnit>>, i: nat)
    requires i < |units|
    ensures var before := ImportsAfter([QiskitHarness()], {}, QiskitTrees(units)[..i]);
            ImportsAfter([QiskitHarness()], {}, QiskitTrees(units)[..i + 1])
              == if units[i].Some? then DedupImports(before.0, before.1, units[i].value.body) else before
    ensures QiskitBodies(units[..i + 1])
              == QiskitBodies(units[..i]) + (if units[i].Some? then QiskitUnitBody(i, units[i].value.body) else [])
    ensures QiskitCalls(units[..i + 1]) == QiskitCalls(units[..i]) + (if units[i].Some? then [MainCall(i)] else [])
    ensures var prev := Pool(QubitRequests(units)[..i]);
            Pool(QubitRequests(units)[..i + 1])
              == if units[i].Some? then (if prev >= units[i].value.maxQubits then prev else units[i].value.maxQubits) else prev
    ensures var prev := Pool(ClbitRequests(units)[..i]);
            Pool(ClbitRequests(units)[..i + 1])
              == if units[i].Some? then (if prev >= units[i].value.maxClbits then prev else units[i].value.maxClbits) else prev
  {
    assert units[..i + 1][..i] == units[..i];
    assert QiskitTrees(units)[..i + 1][..i] == QiskitTrees(units)[..i];
    assert QubitRequests(units)[..i + 1][..i] == QubitRequests(units)[..i];
    assert ClbitRequests(units)[..i + 1][..i] == ClbitRequests(units)[..i];
  }

  lemma QiskitWhole(units: seq<Option<QiskitUnit>>)
    ensures units[..|units|] == units
    ensures QiskitTrees(units)[..|units|] == QiskitTrees(units)
    ensures QubitRequests(units)[..|units|] == QubitRequests(units)
    ensures ClbitRequests(units)[..|units|] == ClbitRequests(units)
  {
  }

  /** `assemble_qiskit`, up to writing the unparsed module. */
  method AssembleQiskit(units: seq<Option<QiskitUnit>>) returns (output: seq<Node>)
    ensures output == QiskitModule(units)
  {
    var allImports := [QiskitHarness()];
    var seenImports: set<string> := {};
    var renamedBodies: seq<Node> := [];
    var mainCalls: seq<Node> := [];
    var globalMaxQubits := 1;
    var globalMaxClbits := 1;
    var i := 0;
    while i < |units|
      invariant 0 <= i <= |units|
      invariant (allImports, seenImports) == ImportsAfter([QiskitHarness()], {}, QiskitTrees(units)[..i])
      invariant renamedBodies == QiskitBodies(units[..i])
      invariant mainCalls == QiskitCalls(units[..i])
      invariant globalMaxQubits == Pool(QubitRequests(units)[..i])
      invariant globalMaxClbits == Pool(ClbitRequests(units)[..i])
    {
      QiskitStep(units, i);
      if units[i].Some? {
        var unit := units[i].value;
        var prefix := UnitPrefix(i);
        globalMaxQubits := if globalMaxQubits >= unit.maxQubits then globalMaxQubits else unit.maxQubits;
        globalMaxClbits := if globalMaxClbits >= unit.maxClbits then globalMaxClbits else unit.maxClbits;
        var globals := CollectGlobals(unit.body);
        var topLevel;
        allImports, seenImports, topLevel := SplitQiskit(unit.body, allImports, seenImports);
        var newNodes := RenameQiskitUnit(prefix, globals, topLevel);
        renamedBodies := renamedBodies + newNodes;
        mainCalls := mainCalls + [MainCall(i)];
      }
      i := i + 1;
    }
    QiskitWhole(units);
    var masterBody := [RegisterInit("qr", "QuantumRegister", globalMaxQubits, "q"),
                       RegisterInit("cr", "ClassicalRegister", globalMaxClbits, "c"),
                       Assign([Name("qc", Store)], CallNamed("QuantumCircuit", [LoadName("qr"), LoadName("cr")]))];
    if |mainCalls| > 0 {
      masterBody := masterBody + mainCalls;
    } else {
      masterBody := masterBody + [Pass];
    }
    masterBody := masterBody + [Return(Some(LoadName("qc")))];
    output := ImportNodes(allImports) + renamedBodies + [FunctionDef("main", NoArguments, masterBody, [], None)];
  }

  function GuppyView(files: seq<SourceFile>): seq<Option<seq<Node>>>
  {
    seq(|files|, k requires 0 <= k < |files| => files[k].guppy)
  }

  function QiskitView(files: seq<SourceFile>): seq<Option<QiskitUnit>>
  {
    seq(|files|, k requires 0 <= k < |files| => files[k].qiskit)
  }

  /** `assemble`: the qiskit assembler exactly for the language `qiskit`, the guppy one otherwise. */
  method Assemble(unparse: Node -> string, files: seq<SourceFile>, language: string) returns (output: seq<Node>)
    ensures language == "qiskit" ==> output == QiskitModule(QiskitView(files))
    ensures language != "qiskit" ==> output == GuppyModule(unparse, GuppyView(files))
  {
    if language == "qiskit" {
      output := AssembleQiskit(QiskitView(files));
      return;
    }
    output := AssembleGuppy(unparse, GuppyView(files));
  }
}

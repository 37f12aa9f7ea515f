/** The body of the master `main` of the guppy assemblers: for every unit's entry routine,
    allocate a qubit or a qubit array for each parameter annotated `qubit` or
    `array[qubit, n]`, call the routine with them, then capture each one by measuring it
    into `result("<entry>.<param>", …)`. */
module GuppyMaster {
  import opened Wrappers
  import opened PyAst

  /** What one parameter adds to the master body: its allocation statement, the argument
      passed to the entry routine and the statement capturing its measurement. */
  datatype ArgPlan = ArgPlan(setup: Node, callArg: Node, capture: Node)

  /** The local variable holding an entry routine's argument: `f"{m_name}_{arg_name}"`. */
  function LocalName(mName: string, arg: string): string { mName + "_" + arg }

  /** The key of a captured measurement: `f"{m_name}.{arg_name}"`. */
  function ResultKey(mName: string, arg: string): string { mName + "." + arg }

  /** `array(qubit() for _ in range(size))`. */
  function ArrayAllocation(size: Const): Node
  {
    CallNamed("array", [GeneratorExp(CallNamed("qubit", []),
                                     [Comprehension(Name("_", Store), CallNamed("range", [Constant(size)]), [])])])
  }

  /** A parameter the master can feed: annotated `qubit`, or `array[qubit, n]` with a literal `n`. */
  predicate IsQuantumParam(p: Param)
  {
    p.annotation.Some? && (IsQubit(p.annotation.value) || GetArraySize(p.annotation.value).Some?)
  }

  /** The reference allocation for a quantum annotation. */
  function Allocation(ann: Node): Node
    requires IsQubit(ann) || GetArraySize(ann).Some?
  {
    if IsQubit(ann) then CallNamed("qubit", []) else ArrayAllocation(GetArraySize(ann).value)
  }

  /** The reference measurement of the local `local` holding a value of annotation `ann`. */
  function Measurement(ann: Node, local: string): Node
  {
    CallNamed(if IsQubit(ann) then "measure" else "measure_array", [LoadName(local)])
  }

  /** The per-parameter step as the assembler performs it: skip an unannotated parameter,
      pick setup and measurement by the annotation's shape, and emit nothing when neither fits. */
  function ArgPlanOf(mName: string, p: Param): (r: Option<ArgPlan>)
    ensures r.Some? <==> IsQuantumParam(p)
  {
    if p.annotation.None? then None
    else
      var ann := p.annotation.value;
      var local := LocalName(mName, p.arg);
      var setupMeasure: Option<(Node, Node)> :=
        if IsQubit(ann) then Some((CallNamed("qubit", []), CallNamed("measure", [LoadName(local)])))
        else
          var size := GetArraySize(ann);
          if size.Some? then Some((ArrayAllocation(size.value), CallNamed("measure_array", [LoadName(local)])))
          else None;
      if setupMeasure.None? then None
      else Some(ArgPlan(Assign([Name(local, Store)], setupMeasure.value.0), LoadName(local),
                        Expr(CallNamed("result", [Constant(StrConst(ResultKey(mName, p.arg))), setupMeasure.value.1]))))
  }

  /** The plans of a parameter list, in parameter order. */
  function PlansOf(mName: string, ps: seq<Param>): (plans: seq<ArgPlan>)
    ensures forall k :: 0 <= k < |plans| ==> plans[k].setup.Assign? && plans[k].capture.Expr?
  {
    if ps == [] then []
    else
      var o := ArgPlanOf(mName, ps[|ps| - 1]);
      PlansOf(mName, ps[..|ps| - 1]) + (if o.Some? then [o.value] else [])
  }

  function Setups(plans: seq<ArgPlan>): seq<Node> { seq(|plans|, k requires 0 <= k < |plans| => plans[k].setup) }

  function CallArgs(plans: seq<ArgPlan>): seq<Node> { seq(|plans|, k requires 0 <= k < |plans| => plans[k].callArg) }

  function Captures(plans: seq<ArgPlan>): seq<Node> { seq(|plans|, k requires 0 <= k < |plans| => plans[k].capture) }

  predicate AllDefs(mains: seq<Node>)
  {
    forall k :: 0 <= k < |mains| ==> mains[k].FunctionDef?
  }

  /** The statements for one entry routine: allocations, the call, the captures. */
  function EntryBlock(m: Node): seq<Node>
    requires m.FunctionDef?
  {
    var plans := PlansOf(m.name, m.args.args);
    Setups(plans) + [Expr(Call(LoadName(m.name), CallArgs(plans), []))] + Captures(plans)
  }

  function Blocks(mains: seq<Node>): seq<Node>
    requires AllDefs(mains)
  {
    if mains == [] then [] else Blocks(mains[..|mains| - 1]) + EntryBlock(mains[|mains| - 1])
  }

  /** The master body: the entry blocks in unit order, or a lone `pass` when no unit has an entry routine. */
  function MasterBody(mains: seq<Node>): seq<Node>
    requires AllDefs(mains)
  {
    if mains == [] then [Pass] else Blocks(mains)
  }

  /** The reference: the parameters the master feeds, in order. */
  function QuantumParams(ps: seq<Param>): (qs: seq<Param>)
    ensures forall k :: 0 <= k < |qs| ==> IsQuantumParam(qs[k]) && qs[k] in ps
  {
    if ps == [] then []
    else QuantumParams(ps[..|ps| - 1]) + (if IsQuantumParam(ps[|ps| - 1]) then [ps[|ps| - 1]] else [])
  }

  /** One plan per quantum parameter, in the same order. */
  lemma {:induction false} PlansFollowQuantumParams(mName: string, ps: seq<Param>)
    ensures |PlansOf(mName, ps)| == |QuantumParams(ps)|
    ensures forall k :: 0 <= k < |PlansOf(mName, ps)| ==> Some(PlansOf(mName, ps)[k]) == ArgPlanOf(mName, QuantumParams(ps)[k])
  {
    if ps != [] {
      PlansFollowQuantumParams(mName, ps[..|ps| - 1]);
    }
  }

  /** For a quantum parameter, the source's branches produce the reference allocation,
      the local as argument and the capture of the reference measurement under its key. */
  lemma ArgPlanOfQuantum(mName: string, p: Param)
    requires IsQuantumParam(p)
    ensures ArgPlanOf(mName, p) == Some(ArgPlan(
              Assign([Name(LocalName(mName, p.arg), Store)], Allocation(p.annotation.value)),
              LoadName(LocalName(mName, p.arg)),
              Expr(CallNamed("result", [Constant(StrConst(ResultKey(mName, p.arg))),
                                        Measurement(p.annotation.value, LocalName(mName, p.arg))]))))
  {
  }

  /** The block of an entry routine with `r` quantum parameters has `2r + 1` statements:
      the `r` allocations in parameter order, then the call passing exactly those locals,
      then the `r` captures in the same order. */
  lemma EntryBlockShape(m: Node)
    requires m.FunctionDef?
    ensures var qs := QuantumParams(m.args.args);
            var block := EntryBlock(m);
            |block| == 2 * |qs| + 1
            && (forall k :: 0 <= k < |qs| ==>
                  block[k] == Assign([Name(LocalName(m.name, qs[k].arg), Store)], Allocation(qs[k].annotation.value)))
            && block[|qs|] == Expr(Call(LoadName(m.name), seq(|qs|, k requires 0 <= k < |qs| => LoadName(LocalName(m.name, qs[k].arg))), []))
            && (forall k :: 0 <= k < |qs| ==>
                  block[|qs| + 1 + k] == Expr(CallNamed("result", [Constant(StrConst(ResultKey(m.name, qs[k].arg))),
                                                                   Measurement(qs[k].annotation.value, LocalName(m.name, qs[k].arg))])))
  {
    var qs := QuantumParams(m.args.args);
    var plans := PlansOf(m.name, m.args.args);
    PlansMatchParams(m.name, m.args.args);
    var call := Expr(Call(LoadName(m.name), CallArgs(plans), []));
    BlockAt(Setups(plans), call, Captures(plans));
    assert CallArgs(plans) == seq(|qs|, k requires 0 <= k < |qs| => LoadName(LocalName(m.name, qs[k].arg)));
  }

  /** Each plan is the reference plan of the quantum parameter in the same position. */
  lemma PlansMatchParams(mName: string, ps: seq<Param>)
    ensures var qs := QuantumParams(ps);
            var plans := PlansOf(mName, ps);
            |plans| == |qs|
            && forall k :: 0 <= k < |qs| ==>
                 plans[k].setup == Assign([Name(LocalName(mName, qs[k].arg), Store)], Allocation(qs[k].annotation.value))
                 && plans[k].callArg == LoadName(LocalName(mName, qs[k].arg))
                 && plans[k].capture == Expr(CallNamed("result", [Constant(StrConst(ResultKey(mName, qs[k].arg))),
                                                                  Measurement(qs[k].annotation.value, LocalName(mName, qs[k].arg))]))
  {
    var qs := QuantumParams(ps);
    var plans := PlansOf(mName, ps);
    PlansFollowQuantumParams(mName, ps);
    forall k | 0 <= k < |qs|
      ensures plans[k].setup == Assign([Name(LocalName(mName, qs[k].arg), Store)], Allocation(qs[k].annotation.value))
      ensures plans[k].callArg == LoadName(LocalName(mName, qs[k].arg))
      ensures plans[k].capture == Expr(CallNamed("result", [Constant(StrConst(ResultKey(mName, qs[k].arg))),
                                                           Measurement(qs[k].annotation.value, LocalName(mName, qs[k].arg))]))
    {
      ArgPlanOfQuantum(mName, qs[k]);
    }
  }

  /** Positions in a block made of a prefix, one statement and a suffix. */
  lemma BlockAt(a: seq<Node>, x: Node, b: seq<Node>)
    ensures |a + [x] + b| == |a| + 1 + |b|
    ensures forall k :: 0 <= k < |a| ==> (a + [x] + b)[k] == a[k]
    ensures (a + [x] + b)[|a|] == x
    ensures forall k :: 0 <= k < |b| ==> (a + [x] + b)[|a| + 1 + k] == b[k]
  {
  }

  lemma {:induction false} BlocksHaveNoPass(mains: seq<Node>)
    requires AllDefs(mains)
    ensures mains != [] ==> |Blocks(mains)| >= 1
    ensures forall k :: 0 <= k < |Blocks(mains)| ==> Blocks(mains)[k] != Pass
  {
    if mains != [] {
      var init := mains[..|mains| - 1];
      BlocksHaveNoPass(init);
      var m := mains[|mains| - 1];
      EntryBlockHasNoPass(m);
      AppendNoPass(Blocks(init), EntryBlock(m));
    }
  }

  lemma EntryBlockHasNoPass(m: Node)
    requires m.FunctionDef?
    ensures |EntryBlock(m)| >= 1
    ensures forall k :: 0 <= k < |EntryBlock(m)| ==> EntryBlock(m)[k] != Pass
  {
    var plans := PlansOf(m.name, m.args.args);
    var call := Expr(Call(LoadName(m.name), CallArgs(plans), []));
    BlockAt(Setups(plans), call, Captures(plans));
  }

  lemma AppendNoPass(a: seq<Node>, b: seq<Node>)
    requires forall k :: 0 <= k < |a| ==> a[k] != Pass
    requires forall k :: 0 <= k < |b| ==> b[k] != Pass
    ensures forall k :: 0 <= k < |a + b| ==> (a + b)[k] != Pass
  {
  }

  lemma MasterPassIffNoEntries(mains: seq<Node>)
    requires AllDefs(mains)
    ensures MasterBody(mains) == [Pass] <==> mains == []
  {
    BlocksHaveNoPass(mains);
    if mains != [] {
      assert MasterBody(mains)[0] != Pass;
    }
  }

  lemma PlansOfSnoc(mName: string, ps: seq<Param>, p: Param)
    ensures PlansOf(mName, ps + [p])
         == PlansOf(mName, ps) + (if ArgPlanOf(mName, p).Some? then [ArgPlanOf(mName, p).value] else [])
  {
    assert (ps + [p])[..|ps|] == ps;
  }

  lemma PlansStep(mName: string, args: seq<Param>, j: nat)
    requires j < |args|
    ensures PlansOf(mName, args[..j + 1])
         == PlansOf(mName, args[..j]) + (if ArgPlanOf(mName, args[j]).Some? then [ArgPlanOf(mName, args[j]).value] else [])
  {
    assert args[..j + 1] == args[..j] + [args[j]];
    PlansOfSnoc(mName, args[..j], args[j]);
  }

  lemma PlanListsSnoc(plans: seq<ArgPlan>, plan: ArgPlan)
    ensures Setups(plans + [plan]) == Setups(plans) + [plan.setup]
    ensures CallArgs(plans + [plan]) == CallArgs(plans) + [plan.callArg]
    ensures Captures(plans + [plan]) == Captures(plans) + [plan.capture]
  {
  }

  /** One parameter's setup and measurement, chosen by the shape of its annotation. */
  method ArgSetup(mName: string, arg: Param) returns (setupExpr: Option<Node>, measureCall: Option<Node>)
    ensures setupExpr.Some? <==> ArgPlanOf(mName, arg).Some?
    ensures setupExpr.Some? ==> measureCall.Some? && ArgPlanOf(mName, arg).value == ArgPlan(
              Assign([Name(LocalName(mName, arg.arg), Store)], setupExpr.value), LoadName(LocalName(mName, arg.arg)),
              Expr(CallNamed("result", [Constant(StrConst(ResultKey(mName, arg.arg))), measureCall.value])))
  {
    setupExpr, measureCall := None, None;
    if arg.annotation.None? {
      return;
    }
    var ann := arg.annotation.value;
    var localVar := LocalName(mName, arg.arg);
    if IsQubit(ann) {
      setupExpr := Some(CallNamed("qubit", []));
      measureCall := Some(CallNamed("measure", [LoadName(localVar)]));
    } else {
      var arrSize := GetArraySize(ann);
      if arrSize.Some? {
        setupExpr := Some(ArrayAllocation(arrSize.value));
        measureCall := Some(CallNamed("measure_array", [LoadName(localVar)]));
      }
    }
  }

  lemma BlocksSnoc(mains: seq<Node>, m: Node)
    requires AllDefs(mains) && m.FunctionDef?
    ensures AllDefs(mains + [m]) && Blocks(mains + [m]) == Blocks(mains) + EntryBlock(m)
  {
    assert (mains + [m])[..|mains|] == mains;
  }

  /** The inner loop over one entry routine's parameters: allocations go straight into the
      body, arguments and captures are collected, then the call and the captures follow. */
  method AppendEntryBlock(body0: seq<Node>, mainNode: Node) returns (mainBody: seq<Node>)
    requires mainNode.FunctionDef?
    ensures mainBody == body0 + EntryBlock(mainNode)
  {
    mainBody := body0;
    var mName := mainNode.name;
    var args := mainNode.args.args;
    var callArgs: seq<Node> := [];
    var resultStmts: seq<Node> := [];
    var j := 0;
    while j < |args|
      invariant 0 <= j <= |args|
      invariant mainBody == body0 + Setups(PlansOf(mName, args[..j]))
      invariant callArgs == CallArgs(PlansOf(mName, args[..j]))
      invariant resultStmts == Captures(PlansOf(mName, args[..j]))
    {
      var arg := args[j];
      PlansStep(mName, args, j);
      var setupExpr, measureCall := ArgSetup(mName, arg);
      if setupExpr.Some? {
        var localVar := LocalName(mName, arg.arg);
        PlanListsSnoc(PlansOf(mName, args[..j]), ArgPlanOf(mName, arg).value);
        mainBody := mainBody + [Assign([Name(localVar, Store)], setupExpr.value)];
        callArgs := callArgs + [LoadName(localVar)];
        if measureCall.Some? {
          resultStmts := resultStmts + [Expr(CallNamed("result", [Constant(StrConst(ResultKey(mName, arg.arg))), measureCall.value]))];
        }
      }
      j := j + 1;
    }
    assert args[..|args|] == args;
    mainBody := mainBody + [Expr(Call(LoadName(mName), callArgs, []))];
    mainBody := mainBody + resultStmts;
  }

  /** Builds the master body: one block per entry routine, or `pass` when there is none. */
  method BuildMasterBody(mains: seq<Node>) returns (mainBody: seq<Node>)
    requires AllDefs(mains)
    ensures mainBody == MasterBody(mains)
  {
    mainBody := [];
    if |mains| == 0 {
      mainBody := mainBody + [Pass];
      return;
    }
    var i := 0;
    while i < |mains|
      invariant 0 <= i <= |mains|
      invariant mainBody == Blocks(mains[..i])
    {
      assert mains[..i + 1] == mains[..i] + [mains[i]];
      BlocksSnoc(mains[..i], mains[i]);
      mainBody := AppendEntryBlock(mainBody, mains[i]);
      i := i + 1;
    }
    assert mains[..|mains|] == mains;
  }
}

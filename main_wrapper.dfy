/** `add_main_wrapper_guppy`: append to a guppy program a `@guppy` routine `main_wrapper`
    that allocates the quantum arguments of the program's `main`, calls it, records each
    argument's measurement, and then a line compiling the wrapper. Parsing the program is a
    parameter: `None` stands for a syntax error. */
module MainWrapper {
  import opened Wrappers
  import opened Text
  import opened PyAst
  import opened Assembly
  import opened GuppyMaster

  /** The source lines the wrapper gets for its parameters, in parameter order. */
  datatype WrapperLines = WrapperLines(setup: seq<string>, results: seq<string>, callArgs: seq<string>)

  const WrapperHeader: string := "\n\n@guppy\ndef main_wrapper() -> None:\n"
  const CompileLine: string := "\nmain_wrapper.compile()\n"

  /** `str()` of an integer. */
  function IntText(i: int): string
  {
    if i < 0 then "-" + NatToString(-i) else NatToString(i)
  }

  /** `str()` of a constant as it is formatted into the array allocation. */
  function ConstText(c: Const): string
  {
    match c
    case IntConst(i) => IntText(i)
    case StrConst(s) => s
    case BoolConst(b) => if b then "True" else "False"
    case NoneConst => "None"
    case OtherConst(repr) => repr
  }

  /** `    {arg_name} = <allocation>`. */
  function SetupLine(arg: string, ann: Node): string
    requires IsQubit(ann) || GetArraySize(ann).Some?
  {
    "    " + arg + " = " + AllocationText(ann)
  }

  /** `    result("{arg_name}", <measure>({arg_name}))`. */
  function ResultLine(arg: string, ann: Node): string
  {
    "    result(\"" + arg + "\", " + MeasureText(ann) + "(" + arg + "))"
  }

  /** The setup line and the result line of one parameter, or nothing when it is not annotated
      `qubit` or `array[qubit, n]`. */
  function ParamLines(p: Param): (r: Option<(string, string)>)
    ensures r.Some? <==> IsQuantumParam(p)
  {
    if p.annotation.None? then None
    else
      var ann := p.annotation.value;
      if IsQubit(ann) || GetArraySize(ann).Some? then Some((SetupLine(p.arg, ann), ResultLine(p.arg, ann)))
      else None
  }

  /** The lines of a parameter list: a fold over the parameters. */
  function WrapperPlan(ps: seq<Param>): WrapperLines
  {
    if ps == [] then WrapperLines([], [], [])
    else
      var prev := WrapperPlan(ps[..|ps| - 1]);
      var p := ps[|ps| - 1];
      var lines := ParamLines(p);
      if lines.Some? then WrapperLines(prev.setup + [lines.value.0], prev.results + [lines.value.1], prev.callArgs + [p.arg])
      else prev
  }

  /** The appended text for given lines. */
  function WrapperCode(lines: WrapperLines): string
  {
    WrapperHeader
    + (if lines.setup != [] then Join(lines.setup, "\n") + "\n" else "")
    + "    main(" + Join(lines.callArgs, ", ") + ")\n"
    + (if lines.results != [] then Join(lines.results, "\n") + "\n" else "")
    + CompileLine
  }

  function AddMainWrapper(code: string, parsed: Option<seq<Node>>): string
  {
    if parsed.None? then code
    else
      var mainFunc := FirstDefNamed(parsed.value, "main");
      if mainFunc.None? then code
      else code + WrapperCode(WrapperPlan(mainFunc.value.args.args))
  }

  /** The allocation text of a quantum annotation. */
  function AllocationText(ann: Node): string
    requires IsQubit(ann) || GetArraySize(ann).Some?
  {
    if IsQubit(ann) then "qubit()" else "array(qubit() for _ in range(" + ConstText(GetArraySize(ann).value) + "))"
  }

  /** The measurement function of a quantum annotation. */
  function MeasureText(ann: Node): string
  {
    if IsQubit(ann) then "measure" else "measure_array"
  }

  /** One setup line, one result line and one call argument per quantum parameter, in
      parameter order; every other parameter contributes nothing. */
  lemma {:induction false} WrapperPlanFollowsQuantumParams(ps: seq<Param>)
    ensures var plan := WrapperPlan(ps);
            var qs := QuantumParams(ps);
            |plan.setup| == |qs| && |plan.results| == |qs| && |plan.callArgs| == |qs|
            && forall k :: 0 <= k < |qs| ==>
                 plan.callArgs[k] == qs[k].arg
                 && plan.setup[k] == SetupLine(qs[k].arg, qs[k].annotation.value)
                 && plan.results[k] == ResultLine(qs[k].arg, qs[k].annotation.value)
  {
    if ps != [] {
      WrapperPlanFollowsQuantumParams(ps[..|ps| - 1]);
    }
  }

  /** The program comes back unchanged exactly when it does not parse or has no top-level
      `main`. */
  lemma UnchangedIffNoMain(code: string, parsed: Option<seq<Node>>)
    ensures AddMainWrapper(code, parsed) == code <==> parsed.None? || "main" !in TopLevelDefNames(parsed.value)
  {
    if parsed.Some? {
      var m := FirstDefNamed(parsed.value, "main");
      if "main" in TopLevelDefNames(parsed.value) {
        assert m.Some?;
        var out := AddMainWrapper(code, parsed);
        assert |out| > |code|;
      }
    }
  }

  /** Otherwise the output begins with the program, followed by the `@guppy` wrapper header,
      and ends with the line compiling the wrapper. */
  lemma WrappedShape(code: string, parsed: Option<seq<Node>>)
    requires parsed.Some? && "main" in TopLevelDefNames(parsed.value)
    ensures var out := AddMainWrapper(code, parsed);
            StartsWith(out, code + WrapperHeader) && EndsWith(out, CompileLine)
  {
    var m := FirstDefNamed(parsed.value, "main");
    assert m.Some?;
    var w := WrapperCode(WrapperPlan(m.value.args.args));
    var out := code + w;
    assert out[..|code + WrapperHeader|] == code + WrapperHeader;
    assert out[|out| - |CompileLine|..] == CompileLine;
  }

  /** The loop over the parameters of `main`. */
  method CollectWrapperLines(args: seq<Param>) returns (plan: WrapperLines)
    ensures plan == WrapperPlan(args)
  {
    var setupCode: seq<string> := [];
    var resultCode: seq<string> := [];
    var callArgs: seq<string> := [];
    var j := 0;
    while j < |args|
      invariant 0 <= j <= |args|
      invariant WrapperLines(setupCode, resultCode, callArgs) == WrapperPlan(args[..j])
    {
      assert args[..j + 1][..j] == args[..j];
      var lines := ParamLines(args[j]);
      if lines.Some? {
        setupCode := setupCode + [lines.value.0];
        resultCode := resultCode + [lines.value.1];
        callArgs := callArgs + [args[j].arg];
      }
      j := j + 1;
    }
    assert args[..|args|] == args;
    plan := WrapperLines(setupCode, resultCode, callArgs);
  }

  /** The text of the wrapper, assembled piece by piece. */
  method BuildWrapperCode(plan: WrapperLines) returns (wrapperCode: string)
    ensures wrapperCode == WrapperCode(plan)
  {
    wrapperCode := WrapperHeader;
    if plan.setup != [] {
      wrapperCode := wrapperCode + Join(plan.setup, "\n") + "\n";
    }
    wrapperCode := wrapperCode + "    main(" + Join(plan.callArgs, ", ") + ")\n";
    if plan.results != [] {
      wrapperCode := wrapperCode + Join(plan.results, "\n") + "\n";
    }
    wrapperCode := wrapperCode + CompileLine;
  }

  method AddMainWrapperGuppy(code: string, parsed: Option<seq<Node>>) returns (output: string)
    ensures output == AddMainWrapper(code, parsed)
  {
    if parsed.None? {
      return code;
    }
    var mainFunc := FindEntry(parsed.value, "");
    assert "" + "main" == "main";
    if mainFunc.None? {
      return code;
    }
    var plan := CollectWrapperLines(mainFunc.value.args.args);
    var wrapperCode := BuildWrapperCode(plan);
    output := code + wrapperCode;
  }
}

/** The part of Python's `ast` module the assembler reads and builds: a tree of tagged
    variants. Every node kind the assembler inspects or creates has its own constructor,
    with its children in the order of the node's `_fields`; every other kind is `Other`,
    whose children are likewise listed in field order. */
module PyAst {
  import opened Wrappers

  datatype Ctx = Load | Store | Del

  /** The value of an `ast.Constant`. */
  datatype Const = IntConst(i: int) | StrConst(s: string) | BoolConst(b: bool) | NoneConst | OtherConst(repr: string)

  /** An `ast.arg`: a parameter name and its optional annotation. */
  datatype Param = Param(arg: string, annotation: Option<Node>)

  /** An `ast.arguments`, fields in declaration order. */
  datatype Arguments = Arguments(
    posonly: seq<Param>, args: seq<Param>, vararg: Option<Param>,
    kwonly: seq<Param>, kwDefaults: seq<Node>, kwarg: Option<Param>, defaults: seq<Node>)

  datatype Node =
    | FunctionDef(name: string, args: Arguments, body: seq<Node>, decorators: seq<Node>, returnAnn: Option<Node>)
    | Lambda(lambdaArgs: Arguments, lambdaBody: Node)
    | Name(id: string, ctx: Ctx)
    | Constant(constant: Const)
    | Num(n: int)                                  // the pre-3.8 number literal
    | Import(text: string)                         // `import` or `from … import`, kept as its `ast.unparse` text
    | Expr(value: Node)
    | Call(func: Node, callArgs: seq<Node>, keywords: seq<Node>)
    | Assign(targets: seq<Node>, value: Node)
    | If(test: Node, body: seq<Node>, orelse: seq<Node>)
    | Compare(left: Node, comparators: seq<Node>)
    | Subscript(value: Node, slice: Node)
    | Tuple(elts: seq<Node>)
    | Index(value: Node)                           // the pre-3.9 subscript wrapper
    | Attribute(value: Node, attr: string)
    | Return(returnValue: Option<Node>)
    | Pass
    | GeneratorExp(elt: Node, generators: seq<Node>)
    | Comprehension(target: Node, iter: Node, ifs: seq<Node>)
    | Other(tag: string, children: seq<Node>)

  const NoArguments := Arguments([], [], None, [], [], None, [])

  function LoadName(id: string): Node { Name(id, Load) }

  /** `f(args…)` with no keywords. */
  function CallNamed(f: string, args: seq<Node>): Node { Call(LoadName(f), args, []) }

  /** `is_qubit_guppy` / `is_qubit`: the annotation is the bare name `qubit`. */
  predicate IsQubit(n: Node)
  {
    n.Name? && n.id == "qubit"
  }

  /** `get_array_size_guppy` / `get_array_size`: the size `n` of an annotation
      `array[qubit, n]` whose size is a literal; `None` for any other shape. A literal
      `None` as size reads as no size, as in the source. */
  function GetArraySize(n: Node): (r: Option<Const>)
    ensures r.Some? ==> r.value != NoneConst && n.Subscript? && n.value.Name? && n.value.id == "array"
  {
    if !n.Subscript? then None
    else if !(n.value.Name? && n.value.id == "array") then None
    else
      var content := if n.slice.Index? then n.slice.value else n.slice;
      if content.Tuple? && |content.elts| == 2 && IsQubit(content.elts[0]) then
        match content.elts[1]
        case Constant(c) => if c == NoneConst then None else Some(c)
        case Num(k) => Some(IntConst(k))
        case _ => None
      else None
  }

  /** The annotation `array[qubit, size]`, optionally with the pre-3.9 `Index` wrapper;
      `ca` and `cq` are the contexts of the two names in it. */
  function ArrayAnnotation(size: Node, wrapped: bool, ca: Ctx, cq: Ctx): Node
  {
    var content := Tuple([Name("qubit", cq), size]);
    Subscript(Name("array", ca), if wrapped then Index(content) else content)
  }

  /** The size is read back from every literal-sized array annotation, wrapped or not. */
  lemma ArraySizeOfAnnotation(c: Const, k: int, wrapped: bool, ca: Ctx, cq: Ctx)
    ensures GetArraySize(ArrayAnnotation(Constant(c), wrapped, ca, cq)) == if c == NoneConst then None else Some(c)
    ensures GetArraySize(ArrayAnnotation(Num(k), wrapped, ca, cq)) == Some(IntConst(k))
  {
  }

  /** Conversely, a size is found only in such an annotation, and it is the annotation's literal. */
  lemma ArraySizeOnlyOfAnnotation(n: Node) returns (size: Node, wrapped: bool, ca: Ctx, cq: Ctx)
    requires GetArraySize(n).Some?
    ensures n == ArrayAnnotation(size, wrapped, ca, cq)
    ensures size == Constant(GetArraySize(n).value) || (size.Num? && GetArraySize(n).value == IntConst(size.n))
  {
    wrapped := n.slice.Index?;
    var content := if wrapped then n.slice.value else n.slice;
    size := content.elts[1];
    ca := n.value.ctx;
    cq := content.elts[0].ctx;
    assert content.elts == [Name("qubit", cq), size];
  }

  /** A qubit annotation never has an array size, so the two parameter kinds never overlap. */
  lemma QubitIsNotArray(n: Node)
    requires IsQubit(n)
    ensures GetArraySize(n) == None
  {
  }

  /** Names of the top-level `FunctionDef`s of a module body: the first pass of every assembler. */
  function TopLevelDefNames(body: seq<Node>): (names: set<string>)
    ensures forall name :: name in names <==> exists k :: 0 <= k < |body| && body[k].FunctionDef? && body[k].name == name
  {
    if body == [] then {}
    else TopLevelDefNames(body[..|body| - 1]) + (if body[|body| - 1].FunctionDef? then {body[|body| - 1].name} else {})
  }
}

/** `CircuitRenamer`: a depth-first walk over a Python tree that gives every reference
    to a top-level function of one unit the unit's prefix `c{i}_`, unless a local
    binding shadows it. The walk keeps a stack of name sets: a function definition
    pushes a fresh scope for its parameters and locals and pops it after its children. */
module Renaming {
  import opened Wrappers
  import opened PyAst

  /** What a renamer is built with: the prefix and the unit's top-level function names. */
  datatype Env = Env(prefix: string, globals: set<string>)

  /** The stack `local_scopes`, innermost scope last. */
  type Scopes = seq<set<string>>

  predicate IsLocal(scopes: Scopes, id: string)
  {
    exists k :: 0 <= k < |scopes| && id in scopes[k]
  }

  /** Adds a name to the innermost scope; with no active scope nothing happens. */
  function AddToTop(scopes: Scopes, id: string): (r: Scopes)
    ensures |r| == |scopes|
    ensures |scopes| > 0 ==> r[..|r| - 1] == scopes[..|scopes| - 1] && r[|r| - 1] == scopes[|scopes| - 1] + {id}
  {
    if scopes == [] then [] else scopes[..|scopes| - 1] + [scopes[|scopes| - 1] + {id}]
  }

  /** The only change a visit makes to the stack outside a function definition's own
      push and pop: same depth, and every scope but the innermost untouched. */
  predicate KeepsOuter(before: Scopes, after: Scopes)
  {
    |after| == |before| && (|before| > 0 ==> after[..|before| - 1] == before[..|before| - 1])
  }

  /** `visit_Name`'s new identifier. */
  function RenamedId(env: Env, scopes: Scopes, id: string): string
  {
    if !IsLocal(scopes, id) && id in env.globals then env.prefix + id else id
  }

  /** `visit_Name`'s effect on the stack: a store records the (possibly renamed) identifier. */
  function NameScopes(env: Env, scopes: Scopes, id: string, ctx: Ctx): Scopes
  {
    if ctx == Store then AddToTop(scopes, RenamedId(env, scopes, id)) else scopes
  }

  /** `visit_arg`: the parameter joins the innermost scope; its annotation is not visited. */
  function ParamScopes(scopes: Scopes, p: Param): Scopes
  {
    AddToTop(scopes, p.arg)
  }

  function ParamsScopes(scopes: Scopes, ps: seq<Param>): (r: Scopes)
    ensures KeepsOuter(scopes, r)
  {
    if ps == [] then scopes else ParamScopes(ParamsScopes(scopes, ps[..|ps| - 1]), ps[|ps| - 1])
  }

  function OptParamScopes(scopes: Scopes, p: Option<Param>): (r: Scopes)
    ensures KeepsOuter(scopes, r)
  {
    if p.Some? then ParamScopes(scopes, p.value) else scopes
  }

  /** The renamed node and the stack after visiting it. */
  function RenameNode(env: Env, scopes: Scopes, n: Node): (r: (Node, Scopes))
    ensures KeepsOuter(scopes, r.1)
    ensures n.FunctionDef? ==> r.1 == scopes
    decreases n
  {
    match n
    case FunctionDef(name, a, body, decs, ret) =>
      var s1 := scopes + [{}];
      var (a', s2) := RenameArgs(env, s1, a);
      var (body', s3) := RenameSeq(env, s2, body);
      var (decs', s4) := RenameSeq(env, s3, decs);
      var (ret', s5) := RenameOpt(env, s4, ret);
      assert s5[..|scopes|] == scopes;
      (FunctionDef(if name in env.globals then env.prefix + name else name, a', body', decs', ret'), s5[..|s5| - 1])
    case Lambda(a, b) =>
      var (a', s1) := RenameArgs(env, scopes, a);
      var (b', s2) := RenameNode(env, s1, b);
      (Lambda(a', b'), s2)
    case Name(id, ctx) => (Name(RenamedId(env, scopes, id), ctx), NameScopes(env, scopes, id, ctx))
    case Constant(_) => (n, scopes)
    case Num(_) => (n, scopes)
    case Import(_) => (n, scopes)
    case Pass => (n, scopes)
    case Expr(v) =>
      var (v', s1) := RenameNode(env, scopes, v);
      (Expr(v'), s1)
    case Call(f, args, kws) =>
      var (f', s1) := RenameNode(env, scopes, f);
      var (args', s2) := RenameSeq(env, s1, args);
      var (kws', s3) := RenameSeq(env, s2, kws);
      (Call(f', args', kws'), s3)
    case Assign(ts, v) =>
      var (ts', s1) := RenameSeq(env, scopes, ts);
      var (v', s2) := RenameNode(env, s1, v);
      (Assign(ts', v'), s2)
    case If(t, b, e) =>
      var (t', s1) := RenameNode(env, scopes, t);
      var (b', s2) := RenameSeq(env, s1, b);
      var (e', s3) := RenameSeq(env, s2, e);
      (If(t', b', e'), s3)
    case Compare(l, cs) =>
      var (l', s1) := RenameNode(env, scopes, l);
      var (cs', s2) := RenameSeq(env, s1, cs);
      (Compare(l', cs'), s2)
    case Subscript(v, sl) =>
      var (v', s1) := RenameNode(env, scopes, v);
      var (sl', s2) := RenameNode(env, s1, sl);
      (Subscript(v', sl'), s2)
    case Tuple(es) =>
      var (es', s1) := RenameSeq(env, scopes, es);
      (Tuple(es'), s1)
    case Index(v) =>
      var (v', s1) := RenameNode(env, scopes, v);
      (Index(v'), s1)
    case Attribute(v, at) =>
      var (v', s1) := RenameNode(env, scopes, v);
      (Attribute(v', at), s1)
    case Return(v) =>
      var (v', s1) := RenameOpt(env, scopes, v);
      (Return(v'), s1)
    case GeneratorExp(e, gs) =>
      var (e', s1) := RenameNode(env, scopes, e);
      var (gs', s2) := RenameSeq(env, s1, gs);
      (GeneratorExp(e', gs'), s2)
    case Comprehension(t, it, ifs) =>
      var (t', s1) := RenameNode(env, scopes, t);
      var (it', s2) := RenameNode(env, s1, it);
      var (ifs', s3) := RenameSeq(env, s2, ifs);
      (Comprehension(t', it', ifs'), s3)
    case Other(tag, cs) =>
      var (cs', s1) := RenameSeq(env, scopes, cs);
      (Other(tag, cs'), s1)
  }

  /** Visiting a list field element by element, threading the stack. */
  function RenameSeq(env: Env, scopes: Scopes, ns: seq<Node>): (r: (seq<Node>, Scopes))
    ensures |r.0| == |ns|
    ensures KeepsOuter(scopes, r.1)
    decreases ns
  {
    if ns == [] then ([], scopes)
    else
      var (xs, s1) := RenameSeq(env, scopes, ns[..|ns| - 1]);
      var (y, s2) := RenameNode(env, s1, ns[|ns| - 1]);
      (xs + [y], s2)
  }

  function RenameOpt(env: Env, scopes: Scopes, o: Option<Node>): (r: (Option<Node>, Scopes))
    ensures KeepsOuter(scopes, r.1)
    decreases o
  {
    match o
    case None => (None, scopes)
    case Some(n) =>
      var (n', s1) := RenameNode(env, scopes, n);
      (Some(n'), s1)
  }

  /** Visiting an `ast.arguments` in field order: parameters join the innermost scope,
      default values are visited as expressions. */
  function RenameArgs(env: Env, scopes: Scopes, a: Arguments): (r: (Arguments, Scopes))
    ensures KeepsOuter(scopes, r.1)
    decreases a
  {
    var s1 := ParamsScopes(scopes, a.posonly);
    var s2 := ParamsScopes(s1, a.args);
    var s3 := OptParamScopes(s2, a.vararg);
    var s4 := ParamsScopes(s3, a.kwonly);
    var (kwd', s5) := RenameSeq(env, s4, a.kwDefaults);
    var s6 := OptParamScopes(s5, a.kwarg);
    var (defs', s7) := RenameSeq(env, s6, a.defaults);
    (a.(kwDefaults := kwd', defaults := defs'), s7)
  }

  /** A definition is renamed exactly when its name is a top-level function name of the
      unit; the scope it pushed is popped, so the stack comes back as it was. */
  lemma DefRenamedIffGlobal(env: Env, scopes: Scopes, n: Node)
    requires n.FunctionDef?
    ensures var r := RenameNode(env, scopes, n);
            r.0.FunctionDef? && r.1 == scopes
            && (n.name in env.globals ==> r.0.name == env.prefix + n.name)
            && (n.name !in env.globals ==> r.0.name == n.name)
  {
  }

  /** A name is prefixed exactly when no active scope holds it and it is a top-level
      function name; a store inside a scope records the new identifier in the innermost
      scope, and otherwise the stack is unchanged. */
  lemma NameRenaming(env: Env, scopes: Scopes, id: string, ctx: Ctx)
    ensures var r := RenameNode(env, scopes, Name(id, ctx));
            r.0 == Name(if (forall k :: 0 <= k < |scopes| ==> id !in scopes[k]) && id in env.globals
                        then env.prefix + id else id, ctx)
            && (ctx == Store && |scopes| > 0 ==>
                  r.1[..|scopes| - 1] == scopes[..|scopes| - 1] && r.1[|scopes| - 1] == scopes[|scopes| - 1] + {r.0.id})
            && (ctx != Store || |scopes| == 0 ==> r.1 == scopes)
  {
  }

  /** No scope of the stack holds a name of `g`. */
  predicate ScopesAvoid(scopes: Scopes, g: set<string>)
  {
    forall k :: 0 <= k < |scopes| ==> scopes[k] !! g
  }

  /** No parameter and no assignment target the renamer visits in `n` binds a name of `g`. */
  predicate NoBindNode(g: set<string>, n: Node)
    decreases n
  {
    match n
    case FunctionDef(_, a, body, decs, ret) => NoBindArgs(g, a) && NoBindSeq(g, body) && NoBindSeq(g, decs) && NoBindOpt(g, ret)
    case Lambda(a, b) => NoBindArgs(g, a) && NoBindNode(g, b)
    case Name(id, ctx) => ctx == Store ==> id !in g
    case Constant(_) => true
    case Num(_) => true
    case Import(_) => true
    case Pass => true
    case Expr(v) => NoBindNode(g, v)
    case Call(f, args, kws) => NoBindNode(g, f) && NoBindSeq(g, args) && NoBindSeq(g, kws)
    case Assign(ts, v) => NoBindSeq(g, ts) && NoBindNode(g, v)
    case If(t, b, e) => NoBindNode(g, t) && NoBindSeq(g, b) && NoBindSeq(g, e)
    case Compare(l, cs) => NoBindNode(g, l) && NoBindSeq(g, cs)
    case Subscript(v, sl) => NoBindNode(g, v) && NoBindNode(g, sl)
    case Tuple(es) => NoBindSeq(g, es)
    case Index(v) => NoBindNode(g, v)
    case Attribute(v, _) => NoBindNode(g, v)
    case Return(v) => NoBindOpt(g, v)
    case GeneratorExp(e, gs) => NoBindNode(g, e) && NoBindSeq(g, gs)
    case Comprehension(t, it, ifs) => NoBindNode(g, t) && NoBindNode(g, it) && NoBindSeq(g, ifs)
    case Other(_, cs) => NoBindSeq(g, cs)
  }

  predicate NoBindSeq(g: set<string>, ns: seq<Node>)
    decreases ns
  {
    ns == [] || (NoBindSeq(g, ns[..|ns| - 1]) && NoBindNode(g, ns[|ns| - 1]))
  }

  predicate NoBindOpt(g: set<string>, o: Option<Node>)
    decreases o
  {
    o.Some? ==> NoBindNode(g, o.value)
  }

  predicate NoBindParams(g: set<string>, ps: seq<Param>)
  {
    forall k :: 0 <= k < |ps| ==> ps[k].arg !in g
  }

  predicate NoBindArgs(g: set<string>, a: Arguments)
    decreases a
  {
    NoBindParams(g, a.posonly) && NoBindParams(g, a.args) && (a.vararg.Some? ==> a.vararg.value.arg !in g)
    && NoBindParams(g, a.kwonly) && NoBindSeq(g, a.kwDefaults) && (a.kwarg.Some? ==> a.kwarg.value.arg !in g)
    && NoBindSeq(g, a.defaults)
  }

  /** The reference renaming, with no scopes at all: every function definition and every
      name whose identifier is one of the unit's top-level functions gets the prefix.
      Parameter annotations and imports are left as they are, as the walk never enters them. */
  function SubstNode(env: Env, n: Node): Node
    decreases n
  {
    match n
    case FunctionDef(name, a, body, decs, ret) =>
      FunctionDef(if name in env.globals then env.prefix + name else name,
                  SubstArgs(env, a), SubstSeq(env, body), SubstSeq(env, decs), SubstOpt(env, ret))
    case Lambda(a, b) => Lambda(SubstArgs(env, a), SubstNode(env, b))
    case Name(id, ctx) => Name(if id in env.globals then env.prefix + id else id, ctx)
    case Constant(_) => n
    case Num(_) => n
    case Import(_) => n
    case Pass => n
    case Expr(v) => Expr(SubstNode(env, v))
    case Call(f, args, kws) => Call(SubstNode(env, f), SubstSeq(env, args), SubstSeq(env, kws))
    case Assign(ts, v) => Assign(SubstSeq(env, ts), SubstNode(env, v))
    case If(t, b, e) => If(SubstNode(env, t), SubstSeq(env, b), SubstSeq(env, e))
    case Compare(l, cs) => Compare(SubstNode(env, l), SubstSeq(env, cs))
    case Subscript(v, sl) => Subscript(SubstNode(env, v), SubstNode(env, sl))
    case Tuple(es) => Tuple(SubstSeq(env, es))
    case Index(v) => Index(SubstNode(env, v))
    case Attribute(v, at) => Attribute(SubstNode(env, v), at)
    case Return(v) => Return(SubstOpt(env, v))
    case GeneratorExp(e, gs) => GeneratorExp(SubstNode(env, e), SubstSeq(env, gs))
    case Comprehension(t, it, ifs) => Comprehension(SubstNode(env, t), SubstNode(env, it), SubstSeq(env, ifs))
    case Other(tag, cs) => Other(tag, SubstSeq(env, cs))
  }

  function SubstSeq(env: Env, ns: seq<Node>): (r: seq<Node>)
    ensures |r| == |ns|
    decreases ns
  {
    if ns == [] then [] else SubstSeq(env, ns[..|ns| - 1]) + [SubstNode(env, ns[|ns| - 1])]
  }

  function SubstOpt(env: Env, o: Option<Node>): Option<Node>
    decreases o
  {
    if o.Some? then Some(SubstNode(env, o.value)) else None
  }

  function SubstArgs(env: Env, a: Arguments): Arguments
    decreases a
  {
    a.(kwDefaults := SubstSeq(env, a.kwDefaults), defaults := SubstSeq(env, a.defaults))
  }

  lemma AddToTopAvoids(scopes: Scopes, id: string, g: set<string>)
    requires ScopesAvoid(scopes, g) && id !in g
    ensures ScopesAvoid(AddToTop(scopes, id), g)
  {
    var r := AddToTop(scopes, id);
    forall k | 0 <= k < |r| ensures r[k] !! g {
      if k < |r| - 1 {
        assert r[k] == r[..|r| - 1][k];
      }
    }
  }

  lemma {:induction false} ParamsAvoid(scopes: Scopes, ps: seq<Param>, g: set<string>)
    requires ScopesAvoid(scopes, g) && NoBindParams(g, ps)
    ensures ScopesAvoid(ParamsScopes(scopes, ps), g)
  {
    if ps != [] {
      ParamsAvoid(scopes, ps[..|ps| - 1], g);
      AddToTopAvoids(ParamsScopes(scopes, ps[..|ps| - 1]), ps[|ps| - 1].arg, g);
    }
  }

  /** When no local binding reuses a top-level function name, the scope-aware walk renames
      exactly as the reference does, whatever (name-free) stack it starts from. */
  lemma {:induction false} RenameNodeIsSubst(env: Env, scopes: Scopes, n: Node)
    requires ScopesAvoid(scopes, env.globals) && NoBindNode(env.globals, n)
    ensures RenameNode(env, scopes, n).0 == SubstNode(env, n)
    ensures ScopesAvoid(RenameNode(env, scopes, n).1, env.globals)
    decreases n, 1
  {
    var g := env.globals;
    match n
    case FunctionDef(_, _, _, _, _) =>
      FunctionDefIsSubst(env, scopes, n);
    case Lambda(a, b) =>
      RenameArgsIsSubst(env, scopes, a);
      RenameNodeIsSubst(env, RenameArgs(env, scopes, a).1, b);
    case Name(id, ctx) =>
      if ctx == Store {
        AddToTopAvoids(scopes, RenamedId(env, scopes, id), g);
      }
    case Constant(_) =>
    case Num(_) =>
    case Import(_) =>
    case Pass =>
    case Expr(v) =>
      RenameNodeIsSubst(env, scopes, v);
    case Subscript(v, sl) =>
      RenameNodeIsSubst(env, scopes, v);
      RenameNodeIsSubst(env, RenameNode(env, scopes, v).1, sl);
    case Index(v) =>
      RenameNodeIsSubst(env, scopes, v);
    case Attribute(v, _) =>
      RenameNodeIsSubst(env, scopes, v);
    case Return(v) =>
      RenameOptIsSubst(env, scopes, v);
    case Call(f, args, kws) =>
      RenameNodeIsSubst(env, scopes, f);
      var s1 := RenameNode(env, scopes, f).1;
      RenameSeqIsSubst(env, s1, args);
      RenameSeqIsSubst(env, RenameSeq(env, s1, args).1, kws);
    case Assign(ts, v) =>
      RenameSeqIsSubst(env, scopes, ts);
      RenameNodeIsSubst(env, RenameSeq(env, scopes, ts).1, v);
    case If(t, b, e) =>
      RenameNodeIsSubst(env, scopes, t);
      var s1 := RenameNode(env, scopes, t).1;
      RenameSeqIsSubst(env, s1, b);
      RenameSeqIsSubst(env, RenameSeq(env, s1, b).1, e);
    case Compare(l, cs) =>
      RenameNodeIsSubst(env, scopes, l);
      RenameSeqIsSubst(env, RenameNode(env, scopes, l).1, cs);
    case Tuple(es) =>
      RenameSeqIsSubst(env, scopes, es);
    case GeneratorExp(e, gs) =>
      RenameNodeIsSubst(env, scopes, e);
      RenameSeqIsSubst(env, RenameNode(env, scopes, e).1, gs);
    case Comprehension(t, it, ifs) =>
      RenameNodeIsSubst(env, scopes, t);
      var s1 := RenameNode(env, scopes, t).1;
      RenameNodeIsSubst(env, s1, it);
      RenameSeqIsSubst(env, RenameNode(env, s1, it).1, ifs);
    case Other(_, cs) =>
      RenameSeqIsSubst(env, scopes, cs);
  }

  /** The function-definition case: a fresh scope for the parameters and the body, popped at the end. */
  lemma {:induction false} FunctionDefIsSubst(env: Env, scopes: Scopes, n: Node)
    requires n.FunctionDef?
    requires ScopesAvoid(scopes, env.globals) && NoBindNode(env.globals, n)
    ensures RenameNode(env, scopes, n).0 == SubstNode(env, n)
    ensures ScopesAvoid(RenameNode(env, scopes, n).1, env.globals)
    decreases n, 0
  {
    var s1 := scopes + [{}];
    assert ScopesAvoid(s1, env.globals);
    RenameArgsIsSubst(env, s1, n.args);
    var s2 := RenameArgs(env, s1, n.args).1;
    RenameSeqIsSubst(env, s2, n.body);
    var s3 := RenameSeq(env, s2, n.body).1;
    RenameSeqIsSubst(env, s3, n.decorators);
    var s4 := RenameSeq(env, s3, n.decorators).1;
    RenameOptIsSubst(env, s4, n.returnAnn);
  }

  lemma {:induction false} RenameSeqIsSubst(env: Env, scopes: Scopes, ns: seq<Node>)
    requires ScopesAvoid(scopes, env.globals) && NoBindSeq(env.globals, ns)
    ensures RenameSeq(env, scopes, ns).0 == SubstSeq(env, ns)
    ensures ScopesAvoid(RenameSeq(env, scopes, ns).1, env.globals)
    decreases ns
  {
    if ns != [] {
      RenameSeqIsSubst(env, scopes, ns[..|ns| - 1]);
      RenameNodeIsSubst(env, RenameSeq(env, scopes, ns[..|ns| - 1]).1, ns[|ns| - 1]);
    }
  }

  lemma {:induction false} RenameOptIsSubst(env: Env, scopes: Scopes, o: Option<Node>)
    requires ScopesAvoid(scopes, env.globals) && NoBindOpt(env.globals, o)
    ensures RenameOpt(env, scopes, o).0 == SubstOpt(env, o)
    ensures ScopesAvoid(RenameOpt(env, scopes, o).1, env.globals)
    decreases o
  {
    if o.Some? {
      RenameNodeIsSubst(env, scopes, o.value);
    }
  }

  lemma {:induction false} RenameArgsIsSubst(env: Env, scopes: Scopes, a: Arguments)
    requires ScopesAvoid(scopes, env.globals) && NoBindArgs(env.globals, a)
    ensures RenameArgs(env, scopes, a).0 == SubstArgs(env, a)
    ensures ScopesAvoid(RenameArgs(env, scopes, a).1, env.globals)
    decreases a
  {
    var g := env.globals;
    ParamsAvoid(scopes, a.posonly, g);
    var s1 := ParamsScopes(scopes, a.posonly);
    ParamsAvoid(s1, a.args, g);
    var s2 := ParamsScopes(s1, a.args);
    if a.vararg.Some? {
      AddToTopAvoids(s2, a.vararg.value.arg, g);
    }
    var s3 := OptParamScopes(s2, a.vararg);
    ParamsAvoid(s3, a.kwonly, g);
    var s4 := ParamsScopes(s3, a.kwonly);
    RenameSeqIsSubst(env, s4, a.kwDefaults);
    var s5 := RenameSeq(env, s4, a.kwDefaults).1;
    if a.kwarg.Some? {
      AddToTopAvoids(s5, a.kwarg.value.arg, g);
    }
    var s6 := OptParamScopes(s5, a.kwarg);
    RenameSeqIsSubst(env, s6, a.defaults);
  }

  /** The renamer of the source as an object: `prefix` and `global_funcs` are fixed at
      construction, `local_scopes` is the stack that `visit` updates. Each visit
      returns the renamed node; nodes are values here, so renaming a node in place
      is modelled as returning its renamed copy. */
  class CircuitRenamer {
    const prefix: string
    const globalFuncs: set<string>
    var localScopes: Scopes

    function Context(): Env
    {
      Env(prefix, globalFuncs)
    }

    constructor (prefix: string, globalFuncs: set<string>)
      ensures this.prefix == prefix && this.globalFuncs == globalFuncs && localScopes == []
    {
      this.prefix := prefix;
      this.globalFuncs := globalFuncs;
      localScopes := [];
    }

    /** `visit`: dispatches to `visit_FunctionDef`, `visit_Name`, or the generic visit of children. */
    method Visit(n: Node) returns (r: Node)
      modifies this
      ensures (r, localScopes) == RenameNode(Context(), old(localScopes), n)
      decreases n
    {
      if n.FunctionDef? {
        r := VisitFunctionDef(n);
      } else if n.Name? {
        r := VisitName(n.id, n.ctx);
      } else {
        r := GenericVisit(n);
      }
    }

    /** `generic_visit`: the node with each child visited in order. */
    method GenericVisit(n: Node) returns (r: Node)
      requires !n.FunctionDef? && !n.Name?
      modifies this
      ensures (r, localScopes) == RenameNode(Context(), old(localScopes), n)
      decreases n, 2
    {
      match n {
        case Lambda(a, b) =>
          var a' := VisitArguments(a);
          var b' := Visit(b);
          r := Lambda(a', b');
        case Constant(_) => r := n;
        case Num(_) => r := n;
        case Import(_) => r := n;
        case Pass => r := n;
        case Expr(v) =>
          var v' := Visit(v);
          r := Expr(v');
        case Subscript(v, sl) =>
          var v' := Visit(v);
          var sl' := Visit(sl);
          r := Subscript(v', sl');
        case Index(v) =>
          var v' := Visit(v);
          r := Index(v');
        case Attribute(v, at) =>
          var v' := Visit(v);
          r := Attribute(v', at);
        case Return(v) =>
          var v' := VisitOpt(v);
          r := Return(v');
        case Call(_, _, _) => r := VisitListChildren(n);
        case Assign(_, _) => r := VisitListChildren(n);
        case If(_, _, _) => r := VisitListChildren(n);
        case Compare(_, _) => r := VisitListChildren(n);
        case Tuple(_) => r := VisitListChildren(n);
        case GeneratorExp(_, _) => r := VisitListChildren(n);
        case Comprehension(_, _, _) => r := VisitListChildren(n);
        case Other(_, _) => r := VisitListChildren(n);
      }
    }

    /** `generic_visit` on the nodes with lists of children. */
    method VisitListChildren(n: Node) returns (r: Node)
      requires n.Call? || n.Assign? || n.If? || n.Compare? || n.Tuple? || n.GeneratorExp? || n.Comprehension? || n.Other?
      modifies this
      ensures (r, localScopes) == RenameNode(Context(), old(localScopes), n)
      decreases n, 1
    {
      if n.Call? {
        r := VisitCall(n);
      } else if n.Assign? {
        r := VisitAssign(n);
      } else if n.If? {
        r := VisitIf(n);
      } else if n.Compare? {
        r := VisitCompare(n);
      } else if n.Tuple? {
        r := VisitTuple(n);
      } else if n.GeneratorExp? {
        r := VisitGeneratorExp(n);
      } else if n.Comprehension? {
        r := VisitComprehension(n);
      } else {
        r := VisitOther(n);
      }
    }

    /** `generic_visit` on a call: the function, then the arguments, then the keywords. */
    method VisitCall(n: Node) returns (r: Node)
      requires n.Call?
      modifies this
      ensures (r, localScopes) == RenameNode(Context(), old(localScopes), n)
      decreases n, 0
    {
      var f' := Visit(n.func);
      var args' := VisitSeq(n.callArgs);
      var kws' := VisitSeq(n.keywords);
      r := Call(f', args', kws');
    }

    /** `generic_visit` on an assignment: the targets, then the value. */
    method VisitAssign(n: Node) returns (r: Node)
      requires n.Assign?
      modifies this
      ensures (r, localScopes) == RenameNode(Context(), old(localScopes), n)
      decreases n, 0
    {
      var ts' := VisitSeq(n.targets);
      var v' := Visit(n.value);
      r := Assign(ts', v');
    }

    /** `generic_visit` on an `if`: the test, then the body, then the `else` branch. */
    method VisitIf(n: Node) returns (r: Node)
      requires n.If?
      modifies this
      ensures (r, localScopes) == RenameNode(Context(), old(localScopes), n)
      decreases n, 0
    {
      var t' := Visit(n.test);
      var b' := VisitSeq(n.body);
      var e' := VisitSeq(n.orelse);
      r := If(t', b', e');
    }

    /** `generic_visit` on a comparison: the left operand, then the comparators. */
    method VisitCompare(n: Node) returns (r: Node)
      requires n.Compare?
      modifies this
      ensures (r, localScopes) == RenameNode(Context(), old(localScopes), n)
      decreases n, 0
    {
      var l' := Visit(n.left);
      var cs' := VisitSeq(n.comparators);
      r := Compare(l', cs');
    }

    /** `generic_visit` on a tuple: its elements. */
    method VisitTuple(n: Node) returns (r: Node)
      requires n.Tuple?
      modifies this
      ensures (r, localScopes) == RenameNode(Context(), old(localScopes), n)
      decreases n, 0
    {
      var es' := VisitSeq(n.elts);
      r := Tuple(es');
    }

    /** `generic_visit` on a generator expression: the element, then the generators. */
    method VisitGeneratorExp(n: Node) returns (r: Node)
      requires n.GeneratorExp?
      modifies this
      ensures (r, localScopes) == RenameNode(Context(), old(localScopes), n)
      decreases n, 0
    {
      var e' := Visit(n.elt);
      var gs' := VisitSeq(n.generators);
      r := GeneratorExp(e', gs');
    }

    /** `generic_visit` on a comprehension: the target, then the iterable, then the conditions. */
    method VisitComprehension(n: Node) returns (r: Node)
      requires n.Comprehension?
      modifies this
      ensures (r, localScopes) == RenameNode(Context(), old(localScopes), n)
      decreases n, 0
    {
      var t' := Visit(n.target);
      var it' := Visit(n.iter);
      var ifs' := VisitSeq(n.ifs);
      r := Comprehension(t', it', ifs');
    }

    /** `generic_visit` on any other node: its children in field order. */
    method VisitOther(n: Node) returns (r: Node)
      requires n.Other?
      modifies this
      ensures (r, localScopes) == RenameNode(Context(), old(localScopes), n)
      decreases n, 0
    {
      var cs' := VisitSeq(n.children);
      r := Other(n.tag, cs');
    }

    /** `visit_FunctionDef`: rename the definition if global, push a scope, visit the
        children (arguments, body, decorators, return annotation), pop the scope. */
    method VisitFunctionDef(n: Node) returns (r: Node)
      requires n.FunctionDef?
      modifies this
      ensures (r, localScopes) == RenameNode(Context(), old(localScopes), n)
      ensures localScopes == old(localScopes)
      decreases n, 0
    {
      var name := n.name;
      if name in globalFuncs {
        name := prefix + name;
      }
      localScopes := localScopes + [{}];
      var a' := VisitArguments(n.args);
      var body' := VisitSeq(n.body);
      var decs' := VisitSeq(n.decorators);
      var ret' := VisitOpt(n.returnAnn);
      localScopes := localScopes[..|localScopes| - 1];
      r := FunctionDef(name, a', body', decs', ret');
    }

    /** `visit_arg`. */
    method VisitArg(p: Param)
      modifies this
      ensures localScopes == ParamScopes(old(localScopes), p)
    {
      if |localScopes| > 0 {
        localScopes := localScopes[..|localScopes| - 1] + [localScopes[|localScopes| - 1] + {p.arg}];
      }
    }

    /** `visit_Name`: search the scopes innermost first; prefix a global that no scope
        binds; record a store in the innermost scope. */
    method VisitName(id: string, ctx: Ctx) returns (r: Node)
      modifies this
      ensures (r, localScopes) == RenameNode(Context(), old(localScopes), Name(id, ctx))
    {
      var isLocal := false;
      var k := |localScopes|;
      while k > 0 && !isLocal
        invariant 0 <= k <= |localScopes|
        invariant isLocal <==> exists j :: k <= j < |localScopes| && id in localScopes[j]
        invariant !isLocal ==> forall j :: k <= j < |localScopes| ==> id !in localScopes[j]
      {
        k := k - 1;
        if id in localScopes[k] {
          isLocal := true;
        }
      }
      var newId := id;
      if !isLocal && id in globalFuncs {
        newId := prefix + id;
      }
      if ctx == Store && |localScopes| > 0 {
        localScopes := localScopes[..|localScopes| - 1] + [localScopes[|localScopes| - 1] + {newId}];
      }
      r := Name(newId, ctx);
    }

    method VisitParams(ps: seq<Param>)
      modifies this
      ensures localScopes == ParamsScopes(old(localScopes), ps)
    {
      var i := 0;
      while i < |ps|
        invariant 0 <= i <= |ps|
        invariant localScopes == ParamsScopes(old(localScopes), ps[..i])
      {
        VisitArg(ps[i]);
        assert ps[..i + 1][..i] == ps[..i];
        i := i + 1;
      }
      assert ps[..|ps|] == ps;
    }

    method VisitOptParam(p: Option<Param>)
      modifies this
      ensures localScopes == OptParamScopes(old(localScopes), p)
    {
      if p.Some? {
        VisitArg(p.value);
      }
    }

    /** Generic visit of an `ast.arguments`. */
    method VisitArguments(a: Arguments) returns (r: Arguments)
      modifies this
      ensures (r, localScopes) == RenameArgs(Context(), old(localScopes), a)
      decreases a
    {
      VisitParams(a.posonly);
      VisitParams(a.args);
      VisitOptParam(a.vararg);
      VisitParams(a.kwonly);
      var kwd' := VisitSeq(a.kwDefaults);
      VisitOptParam(a.kwarg);
      var defs' := VisitSeq(a.defaults);
      r := a.(kwDefaults := kwd', defaults := defs');
    }

    /** Generic visit of a list field. */
    method VisitSeq(ns: seq<Node>) returns (rs: seq<Node>)
      modifies this
      ensures (rs, localScopes) == RenameSeq(Context(), old(localScopes), ns)
      decreases ns
    {
      rs := [];
      var i := 0;
      while i < |ns|
        invariant 0 <= i <= |ns|
        invariant (rs, localScopes) == RenameSeq(Context(), old(localScopes), ns[..i])
      {
        var x := Visit(ns[i]);
        assert ns[..i + 1][..i] == ns[..i];
        rs := rs + [x];
        i := i + 1;
      }
      assert ns[..|ns|] == ns;
    }

    method VisitOpt(o: Option<Node>) returns (r: Option<Node>)
      modifies this
      ensures (r, localScopes) == RenameOpt(Context(), old(localScopes), o)
      decreases o
    {
      if o.Some? {
        var n' := Visit(o.value);
        r := Some(n');
      } else {
        r := None;
      }
    }
  }
}

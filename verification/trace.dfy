/**
 The goroutine-tracing rewrite of build/trace.go (`fileTracer`) and
 build/rewrite.go (`rewriter`). Both visitors prepend a trace-ID lookup to
 every function body and turn `go f(args)` into a call of a generated
 literal that receives a closure built eagerly from `f` and `args`. They
 differ in how they walk: the rewriter treats blocks, ifs and switches as the
 coverage pass does (with an `addCounters` that is still a stub), the tracer
 walks every child. One walk, parameterised by the visitor, models both.
 */
module Trace {
  import opened Ast
  import CoverWalk

  /** Which visitor drives the walk: `fileTracer` or `rewriter`. */
  datatype Pass = Tracer | Rewriter

  /* ---------------- the trace-ID lookup ---------------- */

  /** `_discover_trace_id_ := ru.TraceID()` */
  function IDAssign(ru: string): Stmt {
    Assign(NoId, [Ident(NoPos, TraceIdName)], true,
      [Call(CallExpr(Selector(Ident(NoPos, ru), NoPos, "TraceID"), NoPos, [], NoPos, NoPos))])
  }

  /** `_ = _discover_trace_id_`, so that the variable counts as used. */
  function IDUse(): Stmt {
    Assign(NoId, [Ident(NoPos, "_")], false, [Ident(NoPos, TraceIdName)])
  }

  function IDLookup(ru: string): seq<Stmt> {
    [IDAssign(ru), IDUse()]
  }

  predicate HasIDLookup(ru: string, list: seq<Stmt>) {
    |list| >= 2 && list[..2] == IDLookup(ru)
  }

  /** `addIDLookup`: a non-empty body gets the lookup in front of its statements; an empty one is left empty. */
  function AddIDLookup(ru: string, list: seq<Stmt>): (r: seq<Stmt>)
    ensures |list| == 0 ==> r == list
    ensures |list| > 0 ==> |r| == |list| + 2 && r[2..] == list
  {
    if |list| == 0 then list else IDLookup(ru) + list
  }

  /** Removes a leading lookup, when there is one. */
  function DropIDLookup(ru: string, list: seq<Stmt>): (r: seq<Stmt>)
    ensures |r| <= |list|
  {
    if HasIDLookup(ru, list) then list[2..] else list
  }

  /** The lookup is added exactly to the non-empty lists, and removing it gives back the original statements. */
  lemma IDLookupRoundTrip(ru: string, list: seq<Stmt>)
    ensures DropIDLookup(ru, AddIDLookup(ru, list)) == list
    ensures HasIDLookup(ru, AddIDLookup(ru, list)) <==> |list| > 0
  {
    if |list| > 0 {
      assert (IDLookup(ru) + list)[..2] == IDLookup(ru);
    }
  }

  /** A block whose statements get the lookup. */
  function WithLookup(ru: string, b: Block): (r: Block)
    ensures r.id == b.id && r.lbrace == b.lbrace && r.rbrace == b.rbrace
  {
    Block(b.id, b.lbrace, AddIDLookup(ru, b.list), b.rbrace)
  }

  /* ---------------- the go-statement wrapper ---------------- */

  /** The runtime helper that builds the closure: the variadic one exactly for a call spread with `...`. */
  function MakerName(variadic: bool): string {
    if variadic then "MakeVariadicFunc" else "MakeFunc"
  }

  /** `func(f func()) { ru.ChildEnable(_discover_trace_id_); f() }` */
  function GoFuncLit(ru: string): Expr {
    FuncLit(NoPos, ["f"], Block(NoId, NoPos, [
      ExprStmt(NoId, Call(CallExpr(Selector(Ident(NoPos, ru), NoPos, "ChildEnable"), NoPos, [Ident(NoPos, TraceIdName)], NoPos, NoPos))),
      ExprStmt(NoId, Call(CallExpr(Ident(NoPos, "f"), NoPos, [], NoPos, NoPos)))], NoPos))
  }

  /**
   `addGoFunc`: `f(args)` becomes `lit(ru.Make[Variadic]Func(f, args...))`, so
   that `f` and its arguments are evaluated when the `go` statement runs, as
   they were before.
   */
  function AddGoFunc(ru: string, c: CallExpr): (r: CallExpr)
    ensures r.fun == GoFuncLit(ru) && |r.args| == 1 && r.ellipsis == NoPos
  {
    var maker := MakerName(c.ellipsis != NoPos);
    var closure := CallExpr(Selector(Ident(NoPos, ru), NoPos, maker), NoPos, [c.fun] + c.args, NoPos, NoPos);
    CallExpr(GoFuncLit(ru), NoPos, [Call(closure)], NoPos, NoPos)
  }

  /** Reads a generated call back: the function, its arguments, and whether the last one was spread. */
  function UnwrapGoFunc(ru: string, r: CallExpr): Option<(Expr, seq<Expr>, bool)> {
    if r.fun == GoFuncLit(ru) && |r.args| == 1 && r.args[0].Call?
      && r.args[0].call.fun.Selector? && r.args[0].call.fun.x == Ident(NoPos, ru)
      && (r.args[0].call.fun.sel == MakerName(true) || r.args[0].call.fun.sel == MakerName(false))
      && |r.args[0].call.args| > 0
    then
      var closure := r.args[0].call;
      Some((closure.args[0], closure.args[1..], closure.fun.sel == MakerName(true)))
    else None
  }

  /**
   The wrapper keeps the function and every argument, in order, and picks the
   variadic helper exactly when the call had an ellipsis.
   */
  lemma GoFuncRoundTrip(ru: string, c: CallExpr)
    ensures UnwrapGoFunc(ru, AddGoFunc(ru, c)) == Some((c.fun, c.args, c.ellipsis != NoPos))
  {
    var closure := AddGoFunc(ru, c).args[0].call;
    assert closure.args == [c.fun] + c.args;
    assert closure.args[1..] == c.args;
  }

  /** The generated literal does not start with a lookup: the goroutine takes its parent's trace ID instead. */
  lemma GoFuncLitHasNoLookup(ru: string, ru': string)
    ensures !HasIDLookup(ru', GoFuncLit(ru).body.list)
  {
    assert GoFuncLit(ru).body.list[..2][0].ExprStmt?;
    assert IDLookup(ru')[0].Assign?;
  }

  /* ---------------- the rewriter's counters ---------------- */

  /** `rewriter.addCounters`, still a stub: the list comes back unchanged. */
  function AddCountersStub(pos: Pos, blockEnd: Pos, list: seq<Stmt>, extendToClosingBrace: bool): (r: seq<Stmt>)
    ensures r == list
  {
    list
  }

  /** The rewriter's pass over a clause list, giving every clause body its (stub) counters. */
  function StubClauses(cs: seq<Stmt>): (r: seq<Stmt>)
    requires forall i :: 0 <= i < |cs| ==> cs[i].CaseClause? || cs[i].CommClause?
    ensures r == cs
  {
    if |cs| == 0 then []
    else
      var c := cs[0];
      [c.(clauseBody := AddCountersStub(StmtPos(c), StmtEnd(c), c.clauseBody, false))] + StubClauses(cs[1..])
  }

  /* ---------------- the walk ---------------- */

  function WalkExpr(p: Pass, ru: string, e: Expr): (r: Expr)
    requires WFExpr(e)
    decreases SizeExpr(e), 0, 0
  {
    match e
    case Ident(_, _) => e
    case IntLit(_, _) => e
    case Selector(x, sp, sel) => Selector(WalkExpr(p, ru, x), sp, sel)
    case Index(x, l, i, rb) => Index(WalkExpr(p, ru, x), l, WalkExpr(p, ru, i), rb)
    case AddrOf(op, x) => AddrOf(op, WalkExpr(p, ru, x))
    case Call(c) => Call(WalkCall(p, ru, c))
    case FuncLit(fp, params, body) => FuncLit(fp, params, WithLookup(ru, WalkBlock(p, ru, body)))
    case OtherExpr(op, end, cs) => OtherExpr(op, end, WalkExprs(p, ru, cs))
  }

  function WalkCall(p: Pass, ru: string, c: CallExpr): (r: CallExpr)
    requires WFCall(c)
    ensures r.lparen == c.lparen && r.ellipsis == c.ellipsis && r.rparen == c.rparen && |r.args| == |c.args|
    decreases SizeCall(c), 0, 0
  {
    CallExpr(WalkExpr(p, ru, c.fun), c.lparen, WalkExprs(p, ru, c.args), c.ellipsis, c.rparen)
  }

  function WalkExprs(p: Pass, ru: string, es: seq<Expr>): (r: seq<Expr>)
    requires WFExprs(es)
    ensures |r| == |es|
    decreases SizeExprs(es), 1, 0
  {
    if |es| == 0 then [] else [WalkExpr(p, ru, es[0])] + WalkExprs(p, ru, es[1..])
  }

  function WalkOptExpr(p: Pass, ru: string, e: Option<Expr>): (r: Option<Expr>)
    requires WFOptExpr(e)
    ensures r.Some? == e.Some?
    decreases SizeOptExpr(e), 1, 0
  {
    if e.None? then None else Some(WalkExpr(p, ru, e.value))
  }

  /**
   A block. The rewriter first hands a clause list clause by clause, and any
   other list as a whole, to its `addCounters`; both visitors then walk the
   statements.
   */
  function WalkBlock(p: Pass, ru: string, b: Block): (r: Block)
    requires WFBlock(b)
    ensures r.id == b.id && r.lbrace == b.lbrace && r.rbrace == b.rbrace && |r.list| == |b.list|
    decreases SizeBlock(b), 0, 0
  {
    var list :=
      if p.Tracer? then b.list
      else if |b.list| > 0 && IsClause(b.list[0]) then StubClauses(b.list)
      else AddCountersStub(b.lbrace, b.rbrace + 1, b.list, true);
    Block(b.id, b.lbrace, WalkList(p, ru, list), b.rbrace)
  }

  function WalkList(p: Pass, ru: string, ss: seq<Stmt>): (r: seq<Stmt>)
    requires WFStmts(ss)
    ensures |r| == |ss|
    decreases SizeList(ss), 1, |ss|
  {
    if |ss| == 0 then [] else [WalkStmt(p, ru, ss[0])] + WalkList(p, ru, ss[1..])
  }

  function WalkOpt(p: Pass, ru: string, s: Option<Stmt>): (r: Option<Stmt>)
    requires WFOpt(s)
    ensures r.Some? == s.Some?
    decreases SizeOpt(s), 1, 0
  {
    if s.None? then None else Some(WalkStmt(p, ru, s.value))
  }

  function WalkStmt(p: Pass, ru: string, s: Stmt): (r: Stmt)
    requires WFStmt(s)
    ensures StmtId(r) == StmtId(s)
    ensures p.Rewriter? && (s.Switch? || s.TypeSwitch? || s.Select?) && |s.body.list| == 0 ==> r == s
    decreases Size(s), 0, 1
  {
    match s
    case BlockStmt(b) => BlockStmt(WalkBlock(p, ru, b))
    case If(_, _, _, _, _, _) => WalkIf(p, ru, s)
    case For(_, _, _, _, _, _) => WalkLoop(p, ru, s)
    case Range(_, _, _, _, _, _) => WalkLoop(p, ru, s)
    case Switch(_, _, _, _, body) => if p.Rewriter? && |body.list| == 0 then s else WalkSwitch(p, ru, s)
    case TypeSwitch(_, _, _, _, body) => if p.Rewriter? && |body.list| == 0 then s else WalkSwitch(p, ru, s)
    case Select(_, _, body) => if p.Rewriter? && |body.list| == 0 then s else WalkSwitch(p, ru, s)
    case CaseClause(_, _, _, _, _) => WalkClause(p, ru, s)
    case CommClause(_, _, _, _, _) => WalkClause(p, ru, s)
    case Labeled(id, lp, name, inner) => Labeled(id, lp, name, WalkStmt(p, ru, inner))
    case Branch(_, _, _) => s
    case ExprStmt(id, x) => ExprStmt(id, WalkExpr(p, ru, x))
    case Go(id, gp, c) => Go(id, gp, AddGoFunc(ru, WalkCall(p, ru, c)))
    case Assign(id, lhs, define, rhs) => Assign(id, WalkExprs(p, ru, lhs), define, WalkExprs(p, ru, rhs))
    case OtherStmt(id, sp, end, es) => OtherStmt(id, sp, end, WalkExprs(p, ru, es))
  }

  /**
   The tracer walks every part of an `if`. The rewriter walks only the body
   and the else, which it first turns into a block as the coverage pass does.
   */
  function WalkIf(p: Pass, ru: string, s: Stmt): (r: Stmt)
    requires s.If? && WFStmt(s)
    ensures r.If? && r.id == s.id && r.ifPos == s.ifPos && r.els.Some? == s.els.Some?
    ensures p.Rewriter? ==> r.init == s.init && r.cond == s.cond
    ensures p.Rewriter? && s.els.Some? ==> r.els.value.BlockStmt? && r.els.value.block.lbrace == BlockEnd(s.body)
    decreases Size(s), 0, 0
  {
    assert WFOpt(s.els);
    if p.Tracer? then
      If(s.id, s.ifPos, WalkOpt(p, ru, s.init), WalkExpr(p, ru, s.cond), WalkBlock(p, ru, s.body), WalkOpt(p, ru, s.els))
    else
      var body' := WalkBlock(p, ru, s.body);
      if s.els.None? then If(s.id, s.ifPos, s.init, s.cond, body', None)
      else
        assert SizeOpt(s.els) == Size(s.els.value);
        CoverWalk.ElseBlockFacts(s.body, s.els.value);
        var w' := WalkBlock(p, ru, CoverWalk.ElseBlock(s.body, s.els.value));
        If(s.id, s.ifPos, s.init, s.cond, body', Some(BlockStmt(w')))
  }

  function WalkLoop(p: Pass, ru: string, s: Stmt): (r: Stmt)
    requires (s.For? || s.Range?) && WFStmt(s)
    decreases Size(s), 0, 0
  {
    match s
    case For(id, fp, init, cond, post, body) =>
      For(id, fp, WalkOpt(p, ru, init), WalkOptExpr(p, ru, cond), WalkOpt(p, ru, post), WalkBlock(p, ru, body))
    case Range(id, fp, k, v, x, body) =>
      Range(id, fp, WalkOptExpr(p, ru, k), WalkOptExpr(p, ru, v), WalkExpr(p, ru, x), WalkBlock(p, ru, body))
  }

  function WalkSwitch(p: Pass, ru: string, s: Stmt): (r: Stmt)
    requires (s.Switch? || s.TypeSwitch? || s.Select?) && WFStmt(s)
    decreases Size(s), 0, 0
  {
    match s
    case Switch(id, sp, init, tag, body) =>
      Switch(id, sp, WalkOpt(p, ru, init), WalkOptExpr(p, ru, tag), WalkBlock(p, ru, body))
    case TypeSwitch(id, sp, init, a, body) =>
      TypeSwitch(id, sp, WalkOpt(p, ru, init), WalkStmt(p, ru, a), WalkBlock(p, ru, body))
    case Select(id, sp, body) =>
      Select(id, sp, WalkBlock(p, ru, body))
  }

  function WalkClause(p: Pass, ru: string, s: Stmt): (r: Stmt)
    requires IsClause(s) && WFStmt(s)
    decreases Size(s), 0, 0
  {
    match s
    case CaseClause(id, cp, es, colon, body) =>
      CaseClause(id, cp, WalkExprs(p, ru, es), colon, WalkList(p, ru, body))
    case CommClause(id, cp, comm, colon, body) =>
      CommClause(id, cp, WalkOpt(p, ru, comm), colon, WalkList(p, ru, body))
  }

  function WalkSpecs(p: Pass, ru: string, specs: seq<Spec>): (r: seq<Spec>)
    requires WFSpecs(specs)
    ensures |r| == |specs|
    decreases |specs|
  {
    if |specs| == 0 then []
    else
      var sp := specs[0];
      assert WFSpecs(specs[1..]) by {
        forall i | 0 <= i < |specs[1..]| && specs[1..][i].ValueSpec? ensures WFExprs(specs[1..][i].values) {
          assert specs[1..][i] == specs[i + 1];
        }
      }
      [if sp.ValueSpec? then ValueSpec(sp.names, WalkExprs(p, ru, sp.values)) else sp] + WalkSpecs(p, ru, specs[1..])
  }

  /** Whether every function declaration has a body: `Visit` dereferences the body of each one it meets. */
  predicate AllBodies(ds: seq<Decl>) {
    forall i :: 0 <= i < |ds| && ds[i].FuncDecl? ==> ds[i].fbody.Some?
  }

  /**
   The declarations, in order. A function body gets the lookup and is walked;
   `None` stands for the nil dereference on a declaration without a body.
   */
  function WalkDecls(p: Pass, ru: string, ds: seq<Decl>): (r: Option<seq<Decl>>)
    requires WFDecls(ds)
    ensures r.Some? <==> AllBodies(ds)
    ensures r.Some? ==> |r.value| == |ds|
    ensures r.Some? ==> forall i :: 0 <= i < |ds| ==>
      r.value[i].FuncDecl? == ds[i].FuncDecl?
      && (ds[i].FuncDecl? ==>
            r.value[i].fbody.Some? && (HasIDLookup(ru, r.value[i].fbody.value.list) <==> |ds[i].fbody.value.list| > 0))
    decreases |ds|
  {
    if |ds| == 0 then Some([])
    else
      assert WFDecls(ds[1..]) by {
        forall i | 0 <= i < |ds[1..]| ensures ds[1..][i] == ds[i + 1] { }
      }
      assert WFDecls([ds[0]]) by {
        assert [ds[0]][0] == ds[0];
      }
      var rest := WalkDecls(p, ru, ds[1..]);
      var d' := WalkDecl(p, ru, ds[0]);
      if d'.None? || rest.None? then None else Some([d'.value] + rest.value)
  }

  function WalkDecl(p: Pass, ru: string, d: Decl): (r: Option<Decl>)
    requires WFDecls([d])
    ensures r.Some? <==> (d.FuncDecl? ==> d.fbody.Some?)
    ensures r.Some? ==> r.value.FuncDecl? == d.FuncDecl?
    ensures r.Some? && d.FuncDecl? ==>
      r.value.fbody.Some? && (HasIDLookup(ru, r.value.fbody.value.list) <==> |d.fbody.value.list| > 0)
  {
    assert WFDecls([d]) ==> ([d][0] == d);
    match d
    case FuncDecl(id, fp, name, te, body) =>
      if body.None? then None
      else
        var b := WalkBlock(p, ru, body.value);
        IDLookupRoundTrip(ru, b.list);
        Some(FuncDecl(id, fp, name, te, Some(WithLookup(ru, b))))
    case GenDecl(tok, specs) => Some(GenDecl(tok, WalkSpecs(p, ru, specs)))
  }

  /** A file: its declarations are walked, its imports and comments are not. */
  function WalkFile(p: Pass, ru: string, f: File): (r: Option<File>)
    requires WFDecls(f.decls)
    ensures r.Some? <==> AllBodies(f.decls)
    ensures r.Some? ==> |r.value.decls| == |f.decls| && r.value.imports == f.imports && r.value.comments == f.comments
  {
    var ds := WalkDecls(p, ru, f.decls);
    if ds.None? then None else Some(File(ds.value, f.imports, f.comments))
  }
}

/**
 The tree trimmer of trim.go: given the reached statement and function
 handles of a profile, it keeps the reached function declarations, and
 rewrites every block and clause body through `ReplaceStmt`, pulling the
 first call out of the header of a loop or `if` whose body never ran. As
 `ast.Walk` does, a list is replaced first and the walk then descends into
 the replacement.
 */
module Trim {
  import opened Ast

  /* ---------------- findCall ---------------- */

  function Or<T>(a: Option<T>, b: Option<T>): (r: Option<T>)
    ensures r.Some? ==> (a.Some? && r == a) || (b.Some? && r == b)
  {
    if a.Some? then a else b
  }

  function Or3<T>(a: Option<T>, b: Option<T>, c: Option<T>): (r: Option<T>)
    ensures r.Some? ==> (a.Some? && r == a) || (b.Some? && r == b) || (c.Some? && r == c)
  {
    Or(Or(a, b), c)
  }

  function Or4<T>(a: Option<T>, b: Option<T>, c: Option<T>, d: Option<T>): (r: Option<T>)
    ensures r.Some? ==> (a.Some? && r == a) || (b.Some? && r == b) || (c.Some? && r == c) || (d.Some? && r == d)
  {
    Or(Or(Or(a, b), c), d)
  }

  /** The first call expression in pre-order (the `ast.Inspect` order), or None. */
  function FindCallExpr(e: Expr): (r: Option<CallExpr>)
    ensures r.Some? ==> 1 + SizeCall(r.value) <= SizeExpr(e)
    decreases e, 1
  {
    match e
    case Ident(_, _) => None
    case IntLit(_, _) => None
    case Selector(x, _, _) => FindCallExpr(x)
    case Index(x, _, i, _) => Or(FindCallExpr(x), FindCallExpr(i))
    case AddrOf(_, x) => FindCallExpr(x)
    case Call(c) => Some(c)
    case FuncLit(_, _, b) => FindCallBlock(b)
    case OtherExpr(_, _, cs) => FindCallExprs(cs)
  }

  function FindCallExprs(es: seq<Expr>): (r: Option<CallExpr>)
    ensures r.Some? ==> 1 + SizeCall(r.value) <= SizeExprs(es)
    decreases es, 1
  {
    if |es| == 0 then None else Or(FindCallExpr(es[0]), FindCallExprs(es[1..]))
  }

  function FindCallOptExpr(e: Option<Expr>): (r: Option<CallExpr>)
    ensures r.Some? ==> 1 + SizeCall(r.value) <= SizeOptExpr(e)
    decreases e, 1
  {
    match e
    case None => None
    case Some(x) => FindCallExpr(x)
  }

  function FindCallBlock(b: Block): (r: Option<CallExpr>)
    ensures r.Some? ==> 1 + SizeCall(r.value) <= SizeBlock(b)
    decreases b, 1
  {
    FindCallStmts(b.list)
  }

  function FindCallStmts(ss: seq<Stmt>): (r: Option<CallExpr>)
    ensures r.Some? ==> 1 + SizeCall(r.value) <= SizeList(ss)
    decreases ss, 1
  {
    if |ss| == 0 then None else Or(FindCallStmt(ss[0]), FindCallStmts(ss[1..]))
  }

  /** `findCall` on a possibly-nil statement: nil has no call. */
  function FindCallOpt(s: Option<Stmt>): (r: Option<CallExpr>)
    ensures r.Some? ==> 1 + SizeCall(r.value) <= SizeOpt(s)
    decreases s, 1
  {
    match s
    case None => None
    case Some(x) => FindCallStmt(x)
  }

  function FindCallStmt(s: Stmt): (r: Option<CallExpr>)
    ensures r.Some? ==> 1 + SizeCall(r.value) <= Size(s)
    decreases s, 1
  {
    match s
    case BlockStmt(b) => FindCallBlock(b)
    case If(_, _, _, _, _, _) => FindCallCompound(s)
    case For(_, _, _, _, _, _) => FindCallCompound(s)
    case Range(_, _, _, _, _, _) => FindCallCompound(s)
    case Switch(_, _, _, _, _) => FindCallCompound(s)
    case TypeSwitch(_, _, _, _, _) => FindCallCompound(s)
    case Select(_, _, body) => FindCallBlock(body)
    case CaseClause(_, _, es, _, body) => Or(FindCallExprs(es), FindCallStmts(body))
    case CommClause(_, _, comm, _, body) => Or(FindCallOpt(comm), FindCallStmts(body))
    case Labeled(_, _, _, inner) => FindCallStmt(inner)
    case Branch(_, _, _) => None
    case ExprStmt(_, x) => FindCallExpr(x)
    case Go(_, _, c) => Some(c)
    case Assign(_, lhs, _, rhs) => Or(FindCallExprs(lhs), FindCallExprs(rhs))
    case OtherStmt(_, _, _, es) => FindCallExprs(es)
  }

  /** `findCall` on the statements with a header: header parts first, then the body. */
  function FindCallCompound(s: Stmt): (r: Option<CallExpr>)
    requires s.If? || s.For? || s.Range? || s.Switch? || s.TypeSwitch?
    ensures r.Some? ==> 1 + SizeCall(r.value) <= Size(s)
    decreases s, 0
  {
    match s
    case If(_, _, init, cond, body, els) =>
      Or4(FindCallOpt(init), FindCallExpr(cond), FindCallBlock(body), FindCallOpt(els))
    case For(_, _, init, cond, post, body) =>
      Or4(FindCallOpt(init), FindCallOptExpr(cond), FindCallOpt(post), FindCallBlock(body))
    case Range(_, _, k, v, x, body) =>
      Or4(FindCallOptExpr(k), FindCallOptExpr(v), FindCallExpr(x), FindCallBlock(body))
    case Switch(_, _, init, tag, body) =>
      Or3(FindCallOpt(init), FindCallOptExpr(tag), FindCallBlock(body))
    case TypeSwitch(_, _, init, a, body) =>
      Or3(FindCallOpt(init), FindCallStmt(a), FindCallBlock(body))
  }

  /* ---------------- replaceStmt ---------------- */

  /** `visited`: a nil statement was never reached. */
  predicate Visited(stmts: set<NodeId>, s: Option<Stmt>) {
    s.Some? && StmtId(s.value) in stmts
  }

  /** `&ast.ExprStmt{call}`: a generated statement holding just the call. */
  function CallStmt(c: CallExpr): Stmt {
    ExprStmt(NoId, Call(c))
  }

  function CallStmts(c: Option<CallExpr>): (r: seq<Stmt>)
    ensures SizeList(r) == if c.Some? then 2 + SizeCall(c.value) else 0
  {
    if c.Some? then SizeListOne(CallStmt(c.value)); [CallStmt(c.value)] else []
  }

  /**
   The statements that replace `s` in its list. The second `case *ast.RangeStmt`
   of the source reads `Init`, `Cond` and `Post`, which only a for statement has;
   it is modelled as the for-statement case.
   */
  function ReplaceStmt(stmts: set<NodeId>, s: Stmt): (r: seq<Stmt>)
    ensures SizeList(r) <= Size(s)
  {
    SizeListOne(s);
    match s
    case Range(_, _, _, _, x, body) =>
      if body.id in stmts then [s] else CallStmts(FindCallExpr(x))
    case For(_, _, init, cond, post, body) =>
      if body.id in stmts then [s]
      else
        var a, b, c := CallStmts(FindCallOpt(init)), CallStmts(FindCallOptExpr(cond)), CallStmts(FindCallOpt(post));
        SizeListAppend(a, b);
        SizeListAppend(a + b, c);
        a + b + c
    case If(id, p, init, cond, body, els) =>
      var vIf := body.id in stmts;
      var vElse := Visited(stmts, els);
      if !vIf && !vElse then
        var a, b := CallStmts(FindCallOpt(init)), CallStmts(FindCallExpr(cond));
        SizeListAppend(a, b);
        a + b
      else if !vIf && vElse then ReplaceStmt(stmts, els.value)
      else if vIf && !vElse then SizeListOne(If(id, p, init, cond, body, None)); [If(id, p, init, cond, body, None)]
      else []
    case _ => [s]
  }

  /** The in-order concatenation of `replaceStmt` over a list. */
  function FlatReplace(stmts: set<NodeId>, list: seq<Stmt>): (r: seq<Stmt>)
    ensures SizeList(r) <= SizeList(list)
  {
    if |list| == 0 then []
    else
      var h, t := ReplaceStmt(stmts, list[0]), FlatReplace(stmts, list[1..]);
      SizeListAppend(h, t);
      h + t
  }

  /* ---------------- the walk ---------------- */

  function TrimList(stmts: set<NodeId>, list: seq<Stmt>): seq<Stmt>
    decreases SizeList(list), 2
  {
    TrimStmts(stmts, FlatReplace(stmts, list))
  }

  function TrimStmts(stmts: set<NodeId>, ts: seq<Stmt>): (r: seq<Stmt>)
    ensures |r| == |ts|
    decreases SizeList(ts), 1
  {
    if |ts| == 0 then [] else [TrimStmt(stmts, ts[0])] + TrimStmts(stmts, ts[1..])
  }

  function TrimBlock(stmts: set<NodeId>, b: Block): (r: Block)
    ensures r.id == b.id
    decreases SizeBlock(b), 0
  {
    Block(b.id, b.lbrace, TrimList(stmts, b.list), b.rbrace)
  }

  function TrimOpt(stmts: set<NodeId>, s: Option<Stmt>): (r: Option<Stmt>)
    ensures r.Some? == s.Some?
    decreases SizeOpt(s), 1
  {
    match s
    case None => None
    case Some(x) => Some(TrimStmt(stmts, x))
  }

  function TrimExpr(stmts: set<NodeId>, e: Expr): Expr
    decreases SizeExpr(e), 0
  {
    match e
    case Ident(_, _) => e
    case IntLit(_, _) => e
    case Selector(x, p, sel) => Selector(TrimExpr(stmts, x), p, sel)
    case Index(x, l, i, r) => Index(TrimExpr(stmts, x), l, TrimExpr(stmts, i), r)
    case AddrOf(p, x) => AddrOf(p, TrimExpr(stmts, x))
    case Call(c) => Call(TrimCall(stmts, c))
    case FuncLit(p, params, b) => FuncLit(p, params, TrimBlock(stmts, b))
    case OtherExpr(p, end, cs) => OtherExpr(p, end, TrimExprs(stmts, cs))
  }

  function TrimCall(stmts: set<NodeId>, c: CallExpr): CallExpr
    decreases SizeCall(c), 0
  {
    CallExpr(TrimExpr(stmts, c.fun), c.lparen, TrimExprs(stmts, c.args), c.ellipsis, c.rparen)
  }

  function TrimExprs(stmts: set<NodeId>, es: seq<Expr>): (r: seq<Expr>)
    ensures |r| == |es|
    decreases SizeExprs(es), 1
  {
    if |es| == 0 then [] else [TrimExpr(stmts, es[0])] + TrimExprs(stmts, es[1..])
  }

  function TrimOptExpr(stmts: set<NodeId>, e: Option<Expr>): (r: Option<Expr>)
    ensures r.Some? == e.Some?
    decreases SizeOptExpr(e), 1
  {
    match e
    case None => None
    case Some(x) => Some(TrimExpr(stmts, x))
  }

  /** The walk below a statement: the statement itself is kept, its lists are trimmed. */
  function TrimStmt(stmts: set<NodeId>, s: Stmt): (r: Stmt)
    ensures StmtId(r) == StmtId(s)
    decreases Size(s), 0
  {
    match s
    case BlockStmt(b) => BlockStmt(TrimBlock(stmts, b))
    case If(id, p, init, cond, body, els) =>
      If(id, p, TrimOpt(stmts, init), TrimExpr(stmts, cond), TrimBlock(stmts, body), TrimOpt(stmts, els))
    case For(id, p, init, cond, post, body) =>
      For(id, p, TrimOpt(stmts, init), TrimOptExpr(stmts, cond), TrimOpt(stmts, post), TrimBlock(stmts, body))
    case Range(id, p, k, v, x, body) =>
      Range(id, p, TrimOptExpr(stmts, k), TrimOptExpr(stmts, v), TrimExpr(stmts, x), TrimBlock(stmts, body))
    case Switch(id, p, init, tag, body) =>
      Switch(id, p, TrimOpt(stmts, init), TrimOptExpr(stmts, tag), TrimBlock(stmts, body))
    case TypeSwitch(id, p, init, a, body) =>
      TypeSwitch(id, p, TrimOpt(stmts, init), TrimStmt(stmts, a), TrimBlock(stmts, body))
    case Select(id, p, body) => Select(id, p, TrimBlock(stmts, body))
    case CaseClause(id, p, es, colon, body) =>
      CaseClause(id, p, TrimExprs(stmts, es), colon, TrimList(stmts, body))
    case CommClause(id, p, comm, colon, body) =>
      CommClause(id, p, TrimOpt(stmts, comm), colon, TrimList(stmts, body))
    case Labeled(id, p, name, inner) => Labeled(id, p, name, TrimStmt(stmts, inner))
    case Branch(_, _, _) => s
    case ExprStmt(id, x) => ExprStmt(id, TrimExpr(stmts, x))
    case Go(id, p, c) => Go(id, p, TrimCall(stmts, c))
    case Assign(id, lhs, def, rhs) => Assign(id, TrimExprs(stmts, lhs), def, TrimExprs(stmts, rhs))
    case OtherStmt(id, p, end, es) => OtherStmt(id, p, end, TrimExprs(stmts, es))
  }

  /* ---------------- the file ---------------- */

  /** The function declarations whose handle is in `funcs`, in order. */
  function KeptDecls(funcs: set<NodeId>, ds: seq<Decl>): (r: seq<Decl>)
    ensures |r| <= |ds|
    ensures forall i :: 0 <= i < |r| ==> r[i].FuncDecl? && r[i].id in funcs
  {
    if |ds| == 0 then []
    else if ds[0].FuncDecl? && ds[0].id in funcs then [ds[0]] + KeptDecls(funcs, ds[1..])
    else KeptDecls(funcs, ds[1..])
  }

  function TrimDecl(stmts: set<NodeId>, d: Decl): Decl {
    match d
    case FuncDecl(id, p, name, typeEnd, body) =>
      FuncDecl(id, p, name, typeEnd, if body.Some? then Some(TrimBlock(stmts, body.value)) else None)
    case GenDecl(_, _) => d
  }

  function TrimDecls(stmts: set<NodeId>, ds: seq<Decl>): (r: seq<Decl>)
    ensures |r| == |ds|
    ensures forall i :: 0 <= i < |r| ==> (r[i].FuncDecl? <==> ds[i].FuncDecl?) && (r[i].FuncDecl? ==> r[i].id == ds[i].id)
  {
    if |ds| == 0 then [] else [TrimDecl(stmts, ds[0])] + TrimDecls(stmts, ds[1..])
  }

  /**
   `Profile.Trim` on a file, without the comment-map filtering: only reached
   functions remain, and the imports and comments are kept.
   */
  function TrimFile(funcs: set<NodeId>, stmts: set<NodeId>, f: File): (r: File)
    ensures |r.decls| <= |f.decls| && r.imports == f.imports && r.comments == f.comments
    ensures forall i :: 0 <= i < |r.decls| ==> r.decls[i].FuncDecl? && r.decls[i].id in funcs
  {
    File(TrimDecls(stmts, KeptDecls(funcs, f.decls)), f.imports, f.comments)
  }
}

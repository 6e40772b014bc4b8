/**
 The slice of Go's syntax tree (package go/ast) that the instrumenter, the
 correlator and the trimmer switch on. Every node carries `nat` positions in
 the style of `token.Pos` (0 is `NoPos`), and every statement, block and
 function declaration carries a `NodeId` handle that stands for pointer
 identity (the source keys its coverage maps by node pointer).
 */
module Ast {

  type Pos = nat
  const NoPos: Pos := 0

  /** Identity handle of a parsed node; generated nodes carry `NoId`. */
  type NodeId = nat
  const NoId: NodeId := 0

  const TraceIdName: string := "_discover_trace_id_"
  const CoverVar: string := "DiscoverCover"

  datatype Option<T> = None | Some(value: T)

  datatype Expr =
    | Ident(namePos: Pos, name: string)
    | IntLit(litPos: Pos, value: nat)
    | Selector(x: Expr, selPos: Pos, sel: string)
    | Index(x: Expr, lbrack: Pos, index: Expr, rbrack: Pos)
    | AddrOf(opPos: Pos, x: Expr)
    | Call(call: CallExpr)
    | FuncLit(funcPos: Pos, params: seq<string>, body: Block)
    | OtherExpr(pos: Pos, end: Pos, children: seq<Expr>)

  /** `ellipsis != NoPos` marks a call whose last argument is spread with `...`. */
  datatype CallExpr = CallExpr(fun: Expr, lparen: Pos, args: seq<Expr>, ellipsis: Pos, rparen: Pos)

  datatype Block = Block(id: NodeId, lbrace: Pos, list: seq<Stmt>, rbrace: Pos)

  datatype Stmt =
    | BlockStmt(block: Block)
    | If(id: NodeId, ifPos: Pos, init: Option<Stmt>, cond: Expr, body: Block, els: Option<Stmt>)
    | For(id: NodeId, forPos: Pos, init: Option<Stmt>, forCond: Option<Expr>, post: Option<Stmt>, body: Block)
    | Range(id: NodeId, forPos: Pos, key: Option<Expr>, value: Option<Expr>, x: Expr, body: Block)
    | Switch(id: NodeId, switchPos: Pos, init: Option<Stmt>, tag: Option<Expr>, body: Block)
    | TypeSwitch(id: NodeId, switchPos: Pos, init: Option<Stmt>, assign: Stmt, body: Block)
    | Select(id: NodeId, selectPos: Pos, body: Block)
    | CaseClause(id: NodeId, casePos: Pos, exprs: seq<Expr>, colon: Pos, clauseBody: seq<Stmt>)
    | CommClause(id: NodeId, casePos: Pos, comm: Option<Stmt>, colon: Pos, clauseBody: seq<Stmt>)
    | Labeled(id: NodeId, labelPos: Pos, labelName: string, stmt: Stmt)
    | Branch(id: NodeId, tokPos: Pos, endPos: Pos)
    | ExprStmt(id: NodeId, x: Expr)
    | Go(id: NodeId, goPos: Pos, goCall: CallExpr)
    | Assign(id: NodeId, lhs: seq<Expr>, define: bool, rhs: seq<Expr>)
    | OtherStmt(id: NodeId, pos: Pos, end: Pos, exprs: seq<Expr>)

  datatype Import = Import(name: Option<string>, path: string)

  datatype Spec =
    | ImportSpec(imp: Import)
    | ValueSpec(names: seq<string>, values: seq<Expr>)
    | TypeSpec(typeName: string)

  datatype DeclTok = ImportTok | ConstTok | TypeTok | VarTok

  datatype Decl =
    | FuncDecl(id: NodeId, funcPos: Pos, name: string, typeEnd: Pos, fbody: Option<Block>)
    | GenDecl(tok: DeclTok, specs: seq<Spec>)

  datatype Comment = Comment(slash: Pos, text: string)
  datatype CommentGroup = CommentGroup(list: seq<Comment>)

  datatype File = File(decls: seq<Decl>, imports: seq<Import>, comments: seq<CommentGroup>)

  /* ---------------- identity ---------------- */

  function StmtId(s: Stmt): NodeId {
    if s.BlockStmt? then s.block.id else s.id
  }

  predicate IsClause(s: Stmt) {
    s.CaseClause? || s.CommClause?
  }

  /* ---------------- positions, as go/ast's Pos() and End() ---------------- */

  function Digits(n: nat): nat {
    if n < 10 then 1 else 1 + Digits(n / 10)
  }

  function ExprPos(e: Expr): Pos {
    match e
    case Ident(p, _) => p
    case IntLit(p, _) => p
    case Selector(x, _, _) => ExprPos(x)
    case Index(x, _, _, _) => ExprPos(x)
    case AddrOf(p, _) => p
    case Call(c) => ExprPos(c.fun)
    case FuncLit(p, _, _) => p
    case OtherExpr(p, _, _) => p
  }

  function ExprEnd(e: Expr): Pos {
    match e
    case Ident(p, name) => p + |name|
    case IntLit(p, v) => p + Digits(v)
    case Selector(_, p, sel) => p + |sel|
    case Index(_, _, _, r) => r + 1
    case AddrOf(_, x) => ExprEnd(x)
    case Call(c) => c.rparen + 1
    case FuncLit(_, _, b) => BlockEnd(b)
    case OtherExpr(_, end, _) => end
  }

  function BlockEnd(b: Block): Pos {
    b.rbrace + 1
  }

  function StmtPos(s: Stmt): Pos {
    match s
    case BlockStmt(b) => b.lbrace
    case If(_, p, _, _, _, _) => p
    case For(_, p, _, _, _, _) => p
    case Range(_, p, _, _, _, _) => p
    case Switch(_, p, _, _, _) => p
    case TypeSwitch(_, p, _, _, _) => p
    case Select(_, p, _) => p
    case CaseClause(_, p, _, _, _) => p
    case CommClause(_, p, _, _, _) => p
    case Labeled(_, p, _, _) => p
    case Branch(_, p, _) => p
    case ExprStmt(_, x) => ExprPos(x)
    case Go(_, p, _) => p
    case Assign(_, lhs, _, _) => if |lhs| > 0 then ExprPos(lhs[0]) else NoPos
    case OtherStmt(_, p, _, _) => p
  }

  function StmtEnd(s: Stmt): Pos {
    match s
    case BlockStmt(b) => BlockEnd(b)
    case If(_, _, _, _, body, els) =>
      if els.Some? then StmtEnd(els.value) else BlockEnd(body)
    case For(_, _, _, _, _, body) => BlockEnd(body)
    case Range(_, _, _, _, _, body) => BlockEnd(body)
    case Switch(_, _, _, _, body) => BlockEnd(body)
    case TypeSwitch(_, _, _, _, body) => BlockEnd(body)
    case Select(_, _, body) => BlockEnd(body)
    case CaseClause(_, _, _, colon, body) =>
      if |body| > 0 then StmtEnd(body[|body| - 1]) else colon + 1
    case CommClause(_, _, _, colon, body) =>
      if |body| > 0 then StmtEnd(body[|body| - 1]) else colon + 1
    case Labeled(_, _, _, inner) => StmtEnd(inner)
    case Branch(_, _, e) => e
    case ExprStmt(_, x) => ExprEnd(x)
    case Go(_, _, c) => c.rparen + 1
    case Assign(_, _, _, rhs) => if |rhs| > 0 then ExprEnd(rhs[|rhs| - 1]) else NoPos
    case OtherStmt(_, _, e, _) => e
  }

  function DeclPos(d: Decl): Pos
    requires d.FuncDecl?
  {
    d.funcPos
  }

  function DeclEnd(d: Decl): Pos
    requires d.FuncDecl?
  {
    if d.fbody.Some? then BlockEnd(d.fbody.value) else d.typeEnd
  }

  /* ---------------- a termination measure for walks that rebuild lists ---------------- */

  function SizeExpr(e: Expr): nat {
    match e
    case Ident(_, _) => 1
    case IntLit(_, _) => 1
    case Selector(x, _, _) => 1 + SizeExpr(x)
    case Index(x, _, i, _) => 1 + SizeExpr(x) + SizeExpr(i)
    case AddrOf(_, x) => 1 + SizeExpr(x)
    case Call(c) => 1 + SizeCall(c)
    case FuncLit(_, _, b) => 1 + SizeBlock(b)
    case OtherExpr(_, _, cs) => 1 + SizeExprs(cs)
  }

  function SizeCall(c: CallExpr): nat {
    1 + SizeExpr(c.fun) + SizeExprs(c.args)
  }

  function SizeExprs(es: seq<Expr>): nat {
    if |es| == 0 then 0 else SizeExpr(es[0]) + SizeExprs(es[1..])
  }

  function SizeOptExpr(e: Option<Expr>): nat {
    match e
    case None => 0
    case Some(x) => SizeExpr(x)
  }

  function SizeBlock(b: Block): nat {
    2 + SizeList(b.list)
  }

  function SizeList(ss: seq<Stmt>): nat {
    if |ss| == 0 then 0 else Size(ss[0]) + SizeList(ss[1..])
  }

  function SizeOpt(s: Option<Stmt>): nat {
    match s
    case None => 0
    case Some(x) => Size(x)
  }

  function Size(s: Stmt): nat {
    match s
    case BlockStmt(b) => 1 + SizeBlock(b)
    case If(_, _, init, cond, body, els) => 1 + SizeOpt(init) + SizeExpr(cond) + SizeBlock(body) + SizeOpt(els)
    case For(_, _, init, cond, post, body) => 1 + SizeOpt(init) + SizeOptExpr(cond) + SizeOpt(post) + SizeBlock(body)
    case Range(_, _, k, v, x, body) => 1 + SizeOptExpr(k) + SizeOptExpr(v) + SizeExpr(x) + SizeBlock(body)
    case Switch(_, _, init, tag, body) => 1 + SizeOpt(init) + SizeOptExpr(tag) + SizeBlock(body)
    case TypeSwitch(_, _, init, a, body) => 1 + SizeOpt(init) + Size(a) + SizeBlock(body)
    case Select(_, _, body) => 1 + SizeBlock(body)
    case CaseClause(_, _, es, _, body) => 2 + SizeExprs(es) + SizeList(body)
    case CommClause(_, _, comm, _, body) => 2 + SizeOpt(comm) + SizeList(body)
    case Labeled(_, _, _, inner) => 1 + Size(inner)
    case Branch(_, _, _) => 1
    case ExprStmt(_, x) => 1 + SizeExpr(x)
    case Go(_, _, c) => 1 + SizeCall(c)
    case Assign(_, lhs, _, rhs) => 1 + SizeExprs(lhs) + SizeExprs(rhs)
    case OtherStmt(_, _, _, es) => 1 + SizeExprs(es)
  }

  lemma SizeListAppend(a: seq<Stmt>, b: seq<Stmt>)
    ensures SizeList(a + b) == SizeList(a) + SizeList(b)
  {
    if |a| == 0 {
      assert a + b == b;
    } else {
      assert (a + b)[1..] == a[1..] + b;
      SizeListAppend(a[1..], b);
    }
  }

  lemma SizeListOne(t: Stmt)
    ensures SizeList([t]) == Size(t)
  {
    assert [t][1..] == [];
  }

  lemma SizeListElement(ss: seq<Stmt>, i: nat)
    requires i < |ss|
    ensures Size(ss[i]) <= SizeList(ss)
  {
    if i > 0 {
      SizeListElement(ss[1..], i - 1);
    }
  }

  lemma SizeExprsElement(es: seq<Expr>, i: nat)
    requires i < |es|
    ensures SizeExpr(es[i]) <= SizeExprs(es)
  {
    if i > 0 {
      SizeExprsElement(es[1..], i - 1);
    }
  }

  /* ---------------- shapes the Go parser guarantees ---------------- */

  /**
   The instrumenting walks assert, by a Go type assertion or a `panic`, that an
   `else` is a block or another `if`, and that a block whose first statement is a
   case (comm) clause holds only case (comm) clauses. Parsed files satisfy this.
   */
  predicate ClauseListOk(list: seq<Stmt>) {
    |list| == 0
    || ((list[0].CaseClause? ==> forall i :: 0 <= i < |list| ==> list[i].CaseClause?)
        && (list[0].CommClause? ==> forall i :: 0 <= i < |list| ==> list[i].CommClause?))
  }

  predicate WFExpr(e: Expr) {
    match e
    case Ident(_, _) => true
    case IntLit(_, _) => true
    case Selector(x, _, _) => WFExpr(x)
    case Index(x, _, i, _) => WFExpr(x) && WFExpr(i)
    case AddrOf(_, x) => WFExpr(x)
    case Call(c) => WFCall(c)
    case FuncLit(_, _, b) => WFBlock(b)
    case OtherExpr(_, _, cs) => forall i :: 0 <= i < |cs| ==> WFExpr(cs[i])
  }

  predicate WFCall(c: CallExpr) {
    WFExpr(c.fun) && forall i :: 0 <= i < |c.args| ==> WFExpr(c.args[i])
  }

  predicate WFExprs(es: seq<Expr>) {
    forall i :: 0 <= i < |es| ==> WFExpr(es[i])
  }

  predicate WFOptExpr(e: Option<Expr>) {
    e.Some? ==> WFExpr(e.value)
  }

  predicate WFBlock(b: Block) {
    ClauseListOk(b.list) && forall i :: 0 <= i < |b.list| ==> WFStmt(b.list[i])
  }

  predicate WFStmts(ss: seq<Stmt>) {
    forall i :: 0 <= i < |ss| ==> WFStmt(ss[i])
  }

  predicate WFOpt(s: Option<Stmt>) {
    s.Some? ==> WFStmt(s.value)
  }

  predicate WFStmt(s: Stmt) {
    match s
    case BlockStmt(b) => WFBlock(b)
    case If(_, _, init, cond, body, els) =>
      WFOpt(init) && WFExpr(cond) && WFBlock(body) && WFOpt(els)
      && (els.Some? ==> els.value.BlockStmt? || els.value.If?)
    case For(_, _, init, cond, post, body) =>
      WFOpt(init) && WFOptExpr(cond) && WFOpt(post) && WFBlock(body)
    case Range(_, _, k, v, x, body) => WFOptExpr(k) && WFOptExpr(v) && WFExpr(x) && WFBlock(body)
    case Switch(_, _, init, tag, body) => WFOpt(init) && WFOptExpr(tag) && WFBlock(body)
    case TypeSwitch(_, _, init, a, body) => WFOpt(init) && WFStmt(a) && WFBlock(body)
    case Select(_, _, body) => WFBlock(body)
    case CaseClause(_, _, es, _, body) =>
      (forall i :: 0 <= i < |es| ==> WFExpr(es[i])) && (forall i :: 0 <= i < |body| ==> WFStmt(body[i]))
    case CommClause(_, _, comm, _, body) =>
      WFOpt(comm) && forall i :: 0 <= i < |body| ==> WFStmt(body[i])
    case Labeled(_, _, _, inner) => WFStmt(inner)
    case Branch(_, _, _) => true
    case ExprStmt(_, x) => WFExpr(x)
    case Go(_, _, c) => WFCall(c)
    case Assign(_, lhs, _, rhs) =>
      (forall i :: 0 <= i < |lhs| ==> WFExpr(lhs[i])) && (forall i :: 0 <= i < |rhs| ==> WFExpr(rhs[i]))
    case OtherStmt(_, _, _, es) => forall i :: 0 <= i < |es| ==> WFExpr(es[i])
  }

  predicate WFSpecs(specs: seq<Spec>) {
    forall i :: 0 <= i < |specs| && specs[i].ValueSpec? ==> WFExprs(specs[i].values)
  }

  predicate WFDecls(ds: seq<Decl>) {
    forall i :: 0 <= i < |ds| ==>
      (ds[i].FuncDecl? && ds[i].fbody.Some? ==> WFBlock(ds[i].fbody.value))
      && (ds[i].GenDecl? ==> WFSpecs(ds[i].specs))
  }
}

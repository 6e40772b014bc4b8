/**
 The extent indexer of parse.go: a pre-order walk of a parsed file that
 records, for every function declaration and for every statement (blocks,
 clauses and statements inside function literals included), its start and
 end as line/column pairs. `at` plays the role of `FileSet.Position`.
 */
module Extents {
  import opened Ast

  datatype LineCol = LineCol(line: int, col: int)

  /** The extent of one function declaration or one statement, keyed by its node. */
  datatype Extent = Extent(key: NodeId, start: LineCol, end: LineCol)

  /** Lexicographic order on (line, column). */
  predicate LessEq(a: LineCol, b: LineCol) {
    a.line < b.line || (a.line == b.line && a.col <= b.col)
  }

  predicate Less(a: LineCol, b: LineCol) {
    a.line < b.line || (a.line == b.line && a.col < b.col)
  }

  /** A position map that never reorders offsets, as a file's line table does not. */
  ghost predicate Monotone(at: Pos -> LineCol) {
    forall p: Pos, q: Pos {:trigger at(p), at(q)} :: p <= q ==> LessEq(at(p), at(q))
  }

  function StmtExtent(s: Stmt, at: Pos -> LineCol): (r: Extent)
    ensures r.key == StmtId(s)
  {
    Extent(StmtId(s), at(StmtPos(s)), at(StmtEnd(s)))
  }

  function BlockExtent(b: Block, at: Pos -> LineCol): (r: Extent)
    ensures r == StmtExtent(BlockStmt(b), at)
  {
    Extent(b.id, at(b.lbrace), at(BlockEnd(b)))
  }

  /* ---------------- statement extents, in ast.Walk order ---------------- */

  function OfExpr(e: Expr, at: Pos -> LineCol): seq<Extent>
    decreases e, 1
  {
    match e
    case Ident(_, _) => []
    case IntLit(_, _) => []
    case Selector(x, _, _) => OfExpr(x, at)
    case Index(x, _, i, _) => OfExpr(x, at) + OfExpr(i, at)
    case AddrOf(_, x) => OfExpr(x, at)
    case Call(c) => OfCall(c, at)
    case FuncLit(_, _, b) => OfBlock(b, at)
    case OtherExpr(_, _, cs) => OfExprs(cs, at)
  }

  function OfCall(c: CallExpr, at: Pos -> LineCol): seq<Extent>
    decreases c, 0
  {
    OfExpr(c.fun, at) + OfExprs(c.args, at)
  }

  function OfExprs(es: seq<Expr>, at: Pos -> LineCol): seq<Extent>
    decreases es, 1
  {
    if |es| == 0 then [] else OfExpr(es[0], at) + OfExprs(es[1..], at)
  }

  function OfOptExpr(e: Option<Expr>, at: Pos -> LineCol): seq<Extent>
    decreases e, 1
  {
    if e.Some? then OfExpr(e.value, at) else []
  }

  /** A block is itself a statement (`*ast.BlockStmt`): its extent comes first. */
  function OfBlock(b: Block, at: Pos -> LineCol): (r: seq<Extent>)
    ensures |r| > 0 && r[0] == BlockExtent(b, at)
    decreases b, 1
  {
    [BlockExtent(b, at)] + OfStmts(b.list, at)
  }

  function OfStmts(ss: seq<Stmt>, at: Pos -> LineCol): seq<Extent>
    decreases ss, 1
  {
    if |ss| == 0 then [] else OfStmt(ss[0], at) + OfStmts(ss[1..], at)
  }

  function OfOpt(s: Option<Stmt>, at: Pos -> LineCol): seq<Extent>
    decreases s, 1
  {
    if s.Some? then OfStmt(s.value, at) else []
  }

  /** A statement's own extent, followed by those of the statements it contains, in walk order. */
  function OfStmt(s: Stmt, at: Pos -> LineCol): (r: seq<Extent>)
    ensures |r| > 0 && r[0] == StmtExtent(s, at)
    decreases s, 1
  {
    match s
    case BlockStmt(b) => OfBlock(b, at)
    case _ => [StmtExtent(s, at)] + OfChildren(s, at)
  }

  function OfChildren(s: Stmt, at: Pos -> LineCol): seq<Extent>
    requires !s.BlockStmt?
    decreases s, 0
  {
    match s
    case If(_, _, init, cond, body, els) => OfOpt(init, at) + OfExpr(cond, at) + OfBlock(body, at) + OfOpt(els, at)
    case For(_, _, init, cond, post, body) => OfOpt(init, at) + OfOptExpr(cond, at) + OfOpt(post, at) + OfBlock(body, at)
    case Range(_, _, k, v, x, body) => OfOptExpr(k, at) + OfOptExpr(v, at) + OfExpr(x, at) + OfBlock(body, at)
    case Switch(_, _, init, tag, body) => OfOpt(init, at) + OfOptExpr(tag, at) + OfBlock(body, at)
    case TypeSwitch(_, _, init, a, body) => OfOpt(init, at) + OfStmt(a, at) + OfBlock(body, at)
    case Select(_, _, body) => OfBlock(body, at)
    case CaseClause(_, _, es, _, body) => OfExprs(es, at) + OfStmts(body, at)
    case CommClause(_, _, comm, _, body) => OfOpt(comm, at) + OfStmts(body, at)
    case Labeled(_, _, _, inner) => OfStmt(inner, at)
    case Branch(_, _, _) => []
    case ExprStmt(_, x) => OfExpr(x, at)
    case Go(_, _, c) => OfCall(c, at)
    case Assign(_, lhs, _, rhs) => OfExprs(lhs, at) + OfExprs(rhs, at)
    case OtherStmt(_, _, _, es) => OfExprs(es, at)
  }

  function OfSpecs(specs: seq<Spec>, at: Pos -> LineCol): seq<Extent> {
    if |specs| == 0 then []
    else (if specs[0].ValueSpec? then OfExprs(specs[0].values, at) else []) + OfSpecs(specs[1..], at)
  }

  function OfDecl(d: Decl, at: Pos -> LineCol): seq<Extent> {
    match d
    case FuncDecl(_, _, _, _, body) => if body.Some? then OfBlock(body.value, at) else []
    case GenDecl(_, specs) => OfSpecs(specs, at)
  }

  /** The statement extents of a file: `findFuncs`' second list. */
  function StmtExtents(f: File, at: Pos -> LineCol): seq<Extent> {
    OfDecls(f.decls, at)
  }

  function OfDecls(ds: seq<Decl>, at: Pos -> LineCol): seq<Extent> {
    if |ds| == 0 then [] else OfDecl(ds[0], at) + OfDecls(ds[1..], at)
  }

  /* ---------------- function extents ---------------- */

  function FuncExtent(d: Decl, at: Pos -> LineCol): (r: Extent)
    requires d.FuncDecl?
    ensures r.key == d.id
  {
    Extent(d.id, at(DeclPos(d)), at(DeclEnd(d)))
  }

  /** The function extents of a file, in declaration order: `findFuncs`' first list. */
  function FuncExtents(f: File, at: Pos -> LineCol): seq<Extent> {
    FuncsOf(f.decls, at)
  }

  function FuncsOf(ds: seq<Decl>, at: Pos -> LineCol): seq<Extent> {
    if |ds| == 0 then []
    else (if ds[0].FuncDecl? then [FuncExtent(ds[0], at)] else []) + FuncsOf(ds[1..], at)
  }

  /** The function declarations of a list, in order. */
  function FuncDecls(ds: seq<Decl>): (r: seq<Decl>)
    ensures forall i :: 0 <= i < |r| ==> r[i].FuncDecl? && r[i] in ds
  {
    if |ds| == 0 then []
    else (if ds[0].FuncDecl? then [ds[0]] else []) + FuncDecls(ds[1..])
  }

  /** One function extent per function declaration, in the same order, each keyed and placed by its declaration. */
  lemma {:induction false} FuncExtentsExact(ds: seq<Decl>, at: Pos -> LineCol)
    ensures |FuncsOf(ds, at)| == |FuncDecls(ds)|
    ensures forall i :: 0 <= i < |FuncsOf(ds, at)| ==>
      FuncsOf(ds, at)[i] == Extent(FuncDecls(ds)[i].id, at(FuncDecls(ds)[i].funcPos), at(DeclEnd(FuncDecls(ds)[i])))
  {
    if |ds| > 0 {
      FuncExtentsExact(ds[1..], at);
    }
  }

  /* ---------------- order ---------------- */

  predicate SortedByStart(es: seq<Extent>) {
    forall i, j :: 0 <= i < j < |es| ==> LessEq(es[i].start, es[j].start)
  }

  /** Declarations whose function keywords appear in increasing offset order. */
  predicate FuncsInOrder(ds: seq<Decl>) {
    forall i, j :: 0 <= i < j < |ds| && ds[i].FuncDecl? && ds[j].FuncDecl? ==> ds[i].funcPos <= ds[j].funcPos
  }

  /** Function extents of a file laid out in order come out sorted by start, as the sweep needs. */
  lemma {:induction false} FuncExtentsSorted(ds: seq<Decl>, at: Pos -> LineCol)
    requires Monotone(at)
    requires FuncsInOrder(ds)
    ensures SortedByStart(FuncsOf(ds, at))
  {
    if |ds| > 0 {
      assert FuncsInOrder(ds[1..]) by {
        forall i, j | 0 <= i < j < |ds[1..]| && ds[1..][i].FuncDecl? && ds[1..][j].FuncDecl?
          ensures ds[1..][i].funcPos <= ds[1..][j].funcPos
        {
          assert ds[1..][i] == ds[i + 1] && ds[1..][j] == ds[j + 1];
        }
      }
      FuncExtentsSorted(ds[1..], at);
      var rest := FuncsOf(ds[1..], at);
      if ds[0].FuncDecl? {
        FuncExtentsExact(ds[1..], at);
        forall j | 0 <= j < |rest| ensures LessEq(at(ds[0].funcPos), rest[j].start) {
          var d := FuncDecls(ds[1..])[j];
          var k :| 0 <= k < |ds[1..]| && ds[1..][k] == d;
          assert ds[k + 1] == d;
          assert ds[0].funcPos <= d.funcPos;
        }
      }
    }
  }

  /** Every function body is itself indexed as a statement, which is what lets the trimmer look bodies up. */
  lemma {:induction false} FuncBodiesIndexed(ds: seq<Decl>, at: Pos -> LineCol)
    ensures forall i :: 0 <= i < |ds| && ds[i].FuncDecl? && ds[i].fbody.Some? ==>
      BlockExtent(ds[i].fbody.value, at) in OfDecls(ds, at)
  {
    if |ds| > 0 {
      FuncBodiesIndexed(ds[1..], at);
      forall i | 0 <= i < |ds| && ds[i].FuncDecl? && ds[i].fbody.Some?
        ensures BlockExtent(ds[i].fbody.value, at) in OfDecls(ds, at)
      {
        if i == 0 {
          assert OfDecl(ds[0], at)[0] == BlockExtent(ds[0].fbody.value, at);
        } else {
          assert ds[1..][i - 1] == ds[i];
        }
      }
    }
  }
}

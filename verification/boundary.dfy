/**
 Where `statementBoundary` can fall. In a laid-out statement every function
 literal's body brace lies inside the span of the node that holds it, so the
 boundary of a statement lies between the statement's start and its end: a
 basic block never ends before the statement that closes it starts, nor
 after that statement ends.
 */
module Boundary {
  import opened Ast
  import opened Cover
  import opened ExtentOrder

  /** `p` is unset, or lies between `lo` and `hi`. */
  predicate Within(p: Pos, lo: Pos, hi: Pos) {
    p == NoPos || lo <= p <= hi
  }

  /* ---------------- the first function literal lies inside its node ---------------- */

  lemma {:induction false} LitExprIn(e: Expr, lo: Pos)
    requires InExpr(e, lo)
    ensures lo <= ExprEnd(e) && Within(LitExpr(e), lo, ExprEnd(e))
    decreases e, 2
  {
    LitExprLaid(e);
  }

  lemma {:induction false} LitExprLaid(e: Expr)
    requires LaidExpr(e)
    ensures Within(LitExpr(e), ExprPos(e), ExprEnd(e))
    decreases e, 1
  {
    match e
    case Ident(_, _) =>
    case IntLit(_, _) =>
    case Selector(x, _, _) =>
      LitExprIn(x, ExprPos(e));
    case Index(x, _, i, _) =>
      LitExprIn(x, ExprPos(e));
      LitExprIn(i, ExprEnd(x));
    case AddrOf(p, x) =>
      LitExprIn(x, p);
    case Call(c) =>
      LitCallIn(c, ExprPos(e));
    case FuncLit(p, _, b) =>
      StmtsAfter(b.list, b.lbrace);
    case OtherExpr(p, _, cs) =>
      LitExprsIn(cs, p);
  }

  lemma {:induction false} LitCallIn(c: CallExpr, lo: Pos)
    requires InCall(c, lo)
    ensures lo <= c.rparen + 1 && Within(LitCall(c), lo, c.rparen + 1)
    decreases c, 2
  {
    LitExprIn(c.fun, lo);
    LitExprsIn(c.args, ExprEnd(c.fun));
  }

  lemma {:induction false} LitExprsIn(es: seq<Expr>, lo: Pos)
    requires InExprs(es, lo)
    ensures lo <= ExprsEnd(es, lo) && Within(LitExprs(es), lo, ExprsEnd(es, lo))
    decreases es, 2
  {
    if |es| > 0 {
      LitExprIn(es[0], lo);
      LitExprsIn(es[1..], ExprEnd(es[0]));
    }
  }

  lemma {:induction false} LitOptExprIn(e: Option<Expr>, lo: Pos)
    requires InOptExpr(e, lo)
    ensures lo <= OptExprEnd(e, lo) && Within(LitOptExpr(e), lo, OptExprEnd(e, lo))
    decreases e, 2
  {
    if e.Some? {
      LitExprIn(e.value, lo);
    }
  }

  lemma {:induction false} LitBlockIn(b: Block, lo: Pos)
    requires InBlock(b, lo)
    ensures lo <= b.lbrace <= BlockEnd(b) && Within(LitBlock(b), lo, BlockEnd(b))
    decreases b, 2
  {
    LitStmtsIn(b.list, b.lbrace);
  }

  lemma {:induction false} LitStmtsIn(ss: seq<Stmt>, lo: Pos)
    requires InStmts(ss, lo)
    ensures lo <= StmtsEnd(ss, lo) && Within(LitStmts(ss), lo, StmtsEnd(ss, lo))
    decreases ss, 2
  {
    if |ss| > 0 {
      LitStmtIn(ss[0], lo);
      LitStmtsIn(ss[1..], StmtEnd(ss[0]));
    }
  }

  lemma {:induction false} LitOptIn(s: Option<Stmt>, lo: Pos)
    requires InOpt(s, lo)
    ensures lo <= OptEnd(s, lo) && Within(LitOpt(s), lo, OptEnd(s, lo))
    decreases s, 2
  {
    if s.Some? {
      LitStmtIn(s.value, lo);
    }
  }

  lemma {:induction false} LitStmtIn(s: Stmt, lo: Pos)
    requires InStmt(s, lo)
    ensures lo <= StmtEnd(s) && Within(LitStmt(s), lo, StmtEnd(s))
    decreases s, 2
  {
    LitStmtLaid(s);
  }

  lemma {:induction false} LitStmtLaid(s: Stmt)
    requires LaidStmt(s)
    ensures Within(LitStmt(s), StmtPos(s), StmtEnd(s))
    decreases s, 1
  {
    match s
    case BlockStmt(b) =>
      LitBlockIn(b, b.lbrace);
    case If(_, p, init, cond, body, els) =>
      LitOptIn(init, p);
      LitExprIn(cond, OptEnd(init, p));
      LitBlockIn(body, ExprEnd(cond));
      LitOptIn(els, BlockEnd(body));
    case For(_, p, init, cond, post, body) =>
      LitOptIn(init, p);
      LitOptExprIn(cond, OptEnd(init, p));
      LitOptIn(post, OptExprEnd(cond, OptEnd(init, p)));
      LitBlockIn(body, OptEnd(post, OptExprEnd(cond, OptEnd(init, p))));
    case Range(_, p, k, v, x, body) =>
      LitOptExprIn(k, p);
      LitOptExprIn(v, OptExprEnd(k, p));
      LitExprIn(x, OptExprEnd(v, OptExprEnd(k, p)));
      LitBlockIn(body, ExprEnd(x));
    case Switch(_, p, init, tag, body) =>
      LitOptIn(init, p);
      LitOptExprIn(tag, OptEnd(init, p));
      LitBlockIn(body, OptExprEnd(tag, OptEnd(init, p)));
    case TypeSwitch(_, p, init, a, body) =>
      LitOptIn(init, p);
      LitStmtIn(a, OptEnd(init, p));
      LitBlockIn(body, StmtEnd(a));
    case Select(_, p, body) =>
      LitBlockIn(body, p);
    case CaseClause(_, p, es, colon, body) =>
      LitExprsIn(es, p);
      LitStmtsIn(body, colon + 1);
    case CommClause(_, p, comm, colon, body) =>
      LitOptIn(comm, p);
      LitStmtsIn(body, colon + 1);
    case Labeled(_, p, _, inner) =>
      LitStmtIn(inner, p);
    case Branch(_, _, _) =>
    case ExprStmt(_, x) =>
      LitExprIn(x, ExprPos(x));
    case Go(_, p, c) =>
      LitCallIn(c, p);
    case Assign(_, lhs, _, rhs) =>
      LitExprsIn(lhs, StmtPos(s));
      LitExprsIn(rhs, ExprsEnd(lhs, StmtPos(s)));
    case OtherStmt(_, p, _, es) =>
      LitExprsIn(es, p);
  }

  /* ---------------- the boundary ---------------- */

  /**
   A basic block closed by `s` ends inside `s`: at the body brace of a control
   statement, at the first function literal met before it, or at the end of
   a simple statement.
   */
  lemma {:induction false} StatementBoundaryWithin(s: Stmt)
    requires LaidStmt(s)
    ensures StmtPos(s) <= StatementBoundary(s) <= StmtEnd(s)
  {
    match s
    case BlockStmt(b) =>
      LitBlockIn(b, b.lbrace);
    case If(_, p, init, cond, body, els) =>
      LitOptIn(init, p);
      LitExprIn(cond, OptEnd(init, p));
      LitBlockIn(body, ExprEnd(cond));
      LitOptIn(els, BlockEnd(body));
    case For(_, p, init, cond, post, body) =>
      LitOptIn(init, p);
      LitOptExprIn(cond, OptEnd(init, p));
      LitOptIn(post, OptExprEnd(cond, OptEnd(init, p)));
      LitBlockIn(body, OptEnd(post, OptExprEnd(cond, OptEnd(init, p))));
    case Range(_, p, k, v, x, body) =>
      LitOptExprIn(k, p);
      LitOptExprIn(v, OptExprEnd(k, p));
      LitExprIn(x, OptExprEnd(v, OptExprEnd(k, p)));
      LitBlockIn(body, ExprEnd(x));
    case Switch(_, p, init, tag, body) =>
      LitOptIn(init, p);
      LitOptExprIn(tag, OptEnd(init, p));
      LitBlockIn(body, OptExprEnd(tag, OptEnd(init, p)));
    case TypeSwitch(_, p, init, a, body) =>
      LitOptIn(init, p);
      LitStmtIn(a, OptEnd(init, p));
      LitBlockIn(body, StmtEnd(a));
    case Select(_, p, body) =>
      LitBlockIn(body, p);
    case Labeled(_, p, _, inner) =>
      StatementBoundaryWithin(inner);
    case CaseClause(_, _, _, _, _) => LitStmtLaid(s);
    case CommClause(_, _, _, _, _) => LitStmtLaid(s);
    case Branch(_, _, _) =>
    case ExprStmt(_, _) => LitStmtLaid(s);
    case Go(_, _, _) => LitStmtLaid(s);
    case Assign(_, _, _, _) => LitStmtLaid(s);
    case OtherStmt(_, _, _, _) => LitStmtLaid(s);
  }
}

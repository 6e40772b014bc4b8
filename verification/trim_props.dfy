/**
 Properties of the trimmer: `findCall` agrees with an independent pre-order
 enumeration of all calls, the replacement of an untaken loop or `if` is
 exactly the first call of each header part, and trimming a trimmed file
 against the same profile changes nothing.
 */
module TrimProps {
  import opened Ast
  import opened Trim

  /* ---------------- every call, in pre-order ---------------- */

  function CallsExpr(e: Expr): seq<CallExpr> {
    match e
    case Ident(_, _) => []
    case IntLit(_, _) => []
    case Selector(x, _, _) => CallsExpr(x)
    case Index(x, _, i, _) => CallsExpr(x) + CallsExpr(i)
    case AddrOf(_, x) => CallsExpr(x)
    case Call(c) => [c] + CallsExpr(c.fun) + CallsExprs(c.args)
    case FuncLit(_, _, b) => CallsBlock(b)
    case OtherExpr(_, _, cs) => CallsExprs(cs)
  }

  function CallsExprs(es: seq<Expr>): seq<CallExpr> {
    if |es| == 0 then [] else CallsExpr(es[0]) + CallsExprs(es[1..])
  }

  function CallsOptExpr(e: Option<Expr>): seq<CallExpr> {
    if e.Some? then CallsExpr(e.value) else []
  }

  function CallsBlock(b: Block): seq<CallExpr> {
    CallsStmts(b.list)
  }

  function CallsStmts(ss: seq<Stmt>): seq<CallExpr> {
    if |ss| == 0 then [] else CallsStmt(ss[0]) + CallsStmts(ss[1..])
  }

  function CallsOpt(s: Option<Stmt>): seq<CallExpr> {
    if s.Some? then CallsStmt(s.value) else []
  }

  function CallsStmt(s: Stmt): seq<CallExpr> {
    match s
    case BlockStmt(b) => CallsBlock(b)
    case If(_, _, init, cond, body, els) => CallsOpt(init) + CallsExpr(cond) + CallsBlock(body) + CallsOpt(els)
    case For(_, _, init, cond, post, body) => CallsOpt(init) + CallsOptExpr(cond) + CallsOpt(post) + CallsBlock(body)
    case Range(_, _, k, v, x, body) => CallsOptExpr(k) + CallsOptExpr(v) + CallsExpr(x) + CallsBlock(body)
    case Switch(_, _, init, tag, body) => CallsOpt(init) + CallsOptExpr(tag) + CallsBlock(body)
    case TypeSwitch(_, _, init, a, body) => CallsOpt(init) + CallsStmt(a) + CallsBlock(body)
    case Select(_, _, body) => CallsBlock(body)
    case CaseClause(_, _, es, _, body) => CallsExprs(es) + CallsStmts(body)
    case CommClause(_, _, comm, _, body) => CallsOpt(comm) + CallsStmts(body)
    case Labeled(_, _, _, inner) => CallsStmt(inner)
    case Branch(_, _, _) => []
    case ExprStmt(_, x) => CallsExpr(x)
    case Go(_, _, c) => [c] + CallsExpr(c.fun) + CallsExprs(c.args)
    case Assign(_, lhs, _, rhs) => CallsExprs(lhs) + CallsExprs(rhs)
    case OtherStmt(_, _, _, es) => CallsExprs(es)
  }

  function First<T>(s: seq<T>): Option<T> {
    if |s| > 0 then Some(s[0]) else None
  }

  lemma FirstAppend<T>(a: seq<T>, b: seq<T>)
    ensures First(a + b) == Or(First(a), First(b))
  {
    if |a| == 0 {
      assert a + b == b;
    } else {
      assert (a + b)[0] == a[0];
    }
  }

  /* ---------------- findCall is the first call in pre-order ---------------- */

  lemma {:induction false} FindCallExprFirst(e: Expr)
    ensures FindCallExpr(e) == First(CallsExpr(e))
    decreases e, 1
  {
    match e
    case Ident(_, _) =>
    case IntLit(_, _) =>
    case Selector(x, _, _) => FindCallExprFirst(x);
    case Index(x, _, i, _) =>
      FindCallExprFirst(x); FindCallExprFirst(i);
      FirstAppend(CallsExpr(x), CallsExpr(i));
    case AddrOf(_, x) => FindCallExprFirst(x);
    case Call(c) =>
      assert CallsExpr(e) == [c] + (CallsExpr(c.fun) + CallsExprs(c.args));
    case FuncLit(_, _, b) => FindCallBlockFirst(b);
    case OtherExpr(_, _, cs) => FindCallExprsFirst(cs);
  }

  lemma {:induction false} FindCallExprsFirst(es: seq<Expr>)
    ensures FindCallExprs(es) == First(CallsExprs(es))
    decreases es, 1
  {
    if |es| > 0 {
      FindCallExprFirst(es[0]);
      FindCallExprsFirst(es[1..]);
      FirstAppend(CallsExpr(es[0]), CallsExprs(es[1..]));
    }
  }

  lemma {:induction false} FindCallOptExprFirst(e: Option<Expr>)
    ensures FindCallOptExpr(e) == First(CallsOptExpr(e))
    decreases e, 1
  {
    if e.Some? {
      FindCallExprFirst(e.value);
    }
  }

  lemma {:induction false} FindCallBlockFirst(b: Block)
    ensures FindCallBlock(b) == First(CallsBlock(b))
    decreases b, 1
  {
    FindCallStmtsFirst(b.list);
  }

  lemma {:induction false} FindCallStmtsFirst(ss: seq<Stmt>)
    ensures FindCallStmts(ss) == First(CallsStmts(ss))
    decreases ss, 1
  {
    if |ss| > 0 {
      FindCallStmtFirst(ss[0]);
      FindCallStmtsFirst(ss[1..]);
      FirstAppend(CallsStmt(ss[0]), CallsStmts(ss[1..]));
    }
  }

  lemma {:induction false} FindCallOptFirst(s: Option<Stmt>)
    ensures FindCallOpt(s) == First(CallsOpt(s))
    decreases s, 1
  {
    if s.Some? {
      FindCallStmtFirst(s.value);
    }
  }

  lemma FirstAppend3<T>(a: seq<T>, b: seq<T>, c: seq<T>)
    ensures First(a + b + c) == Or3(First(a), First(b), First(c))
  {
    FirstAppend(a, b);
    FirstAppend(a + b, c);
  }

  lemma FirstAppend4<T>(a: seq<T>, b: seq<T>, c: seq<T>, d: seq<T>)
    ensures First(a + b + c + d) == Or4(First(a), First(b), First(c), First(d))
  {
    FirstAppend3(a, b, c);
    FirstAppend(a + b + c, d);
  }

  lemma {:induction false} FindCallStmtFirst(s: Stmt)
    ensures FindCallStmt(s) == First(CallsStmt(s))
    decreases s, 1
  {
    match s
    case BlockStmt(b) => FindCallBlockFirst(b);
    case If(_, _, init, cond, body, els) =>
      FindCallOptFirst(init); FindCallExprFirst(cond); FindCallBlockFirst(body); FindCallOptFirst(els);
      FirstAppend4(CallsOpt(init), CallsExpr(cond), CallsBlock(body), CallsOpt(els));
    case For(_, _, init, cond, post, body) =>
      FindCallOptFirst(init); FindCallOptExprFirst(cond); FindCallOptFirst(post); FindCallBlockFirst(body);
      FirstAppend4(CallsOpt(init), CallsOptExpr(cond), CallsOpt(post), CallsBlock(body));
    case Range(_, _, k, v, x, body) =>
      FindCallOptExprFirst(k); FindCallOptExprFirst(v); FindCallExprFirst(x); FindCallBlockFirst(body);
      FirstAppend4(CallsOptExpr(k), CallsOptExpr(v), CallsExpr(x), CallsBlock(body));
    case Switch(_, _, init, tag, body) =>
      FindCallOptFirst(init); FindCallOptExprFirst(tag); FindCallBlockFirst(body);
      FirstAppend3(CallsOpt(init), CallsOptExpr(tag), CallsBlock(body));
    case TypeSwitch(_, _, init, a, body) =>
      FindCallOptFirst(init); FindCallStmtFirst(a); FindCallBlockFirst(body);
      FirstAppend3(CallsOpt(init), CallsStmt(a), CallsBlock(body));
    case Select(_, _, body) => FindCallBlockFirst(body);
    case CaseClause(_, _, es, _, body) =>
      FindCallExprsFirst(es); FindCallStmtsFirst(body);
      FirstAppend(CallsExprs(es), CallsStmts(body));
    case CommClause(_, _, comm, _, body) =>
      FindCallOptFirst(comm); FindCallStmtsFirst(body);
      FirstAppend(CallsOpt(comm), CallsStmts(body));
    case Labeled(_, _, _, inner) => FindCallStmtFirst(inner);
    case Branch(_, _, _) =>
    case ExprStmt(_, x) => FindCallExprFirst(x);
    case Go(_, _, c) =>
      assert CallsStmt(s) == [c] + (CallsExpr(c.fun) + CallsExprs(c.args));
    case Assign(_, lhs, _, rhs) =>
      FindCallExprsFirst(lhs); FindCallExprsFirst(rhs);
      FirstAppend(CallsExprs(lhs), CallsExprs(rhs));
    case OtherStmt(_, _, _, es) => FindCallExprsFirst(es);
  }

  /** `findCall` finds nothing exactly when the subtree holds no call, and what it finds is a call of the subtree. */
  lemma FindCallStmtIffCalls(s: Option<Stmt>)
    ensures FindCallOpt(s).None? <==> |CallsOpt(s)| == 0
    ensures FindCallOpt(s).Some? ==> FindCallOpt(s).value in CallsOpt(s)
  {
    FindCallOptFirst(s);
  }

  lemma FindCallExprIffCalls(e: Expr)
    ensures FindCallExpr(e).None? <==> |CallsExpr(e)| == 0
    ensures FindCallExpr(e).Some? ==> FindCallExpr(e).value in CallsExpr(e)
  {
    FindCallExprFirst(e);
  }

  /* ---------------- side effects of an untaken header are kept ---------------- */

  /** For each header part in order, a bare statement holding its first call, if it has one. */
  function HeaderCalls(parts: seq<seq<CallExpr>>): seq<Stmt> {
    if |parts| == 0 then []
    else (if |parts[0]| > 0 then [CallStmt(parts[0][0])] else []) + HeaderCalls(parts[1..])
  }

  lemma HeaderCallsOne(a: seq<CallExpr>)
    ensures HeaderCalls([a]) == (if |a| > 0 then [CallStmt(a[0])] else [])
  {
    assert [a][1..] == [];
  }

  lemma HeaderCallsCons(a: seq<CallExpr>, rest: seq<seq<CallExpr>>)
    ensures HeaderCalls([a] + rest) == (if |a| > 0 then [CallStmt(a[0])] else []) + HeaderCalls(rest)
  {
    assert ([a] + rest)[1..] == rest;
  }

  lemma CallStmtsFirst(c: Option<CallExpr>, calls: seq<CallExpr>)
    requires c == First(calls)
    ensures CallStmts(c) == (if |calls| > 0 then [CallStmt(calls[0])] else [])
  {
  }

  /** An unreached range statement becomes the first call of its collection expression, or nothing. */
  lemma UnreachedRangeKeepsCall(stmts: set<NodeId>, s: Stmt)
    requires s.Range? && s.body.id !in stmts
    ensures ReplaceStmt(stmts, s) == HeaderCalls([CallsExpr(s.x)])
  {
    FindCallExprFirst(s.x);
    HeaderCallsOne(CallsExpr(s.x));
  }

  /** An unreached for statement becomes the first calls of init, cond and post, in that order. */
  lemma UnreachedForKeepsCalls(stmts: set<NodeId>, s: Stmt)
    requires s.For? && s.body.id !in stmts
    ensures ReplaceStmt(stmts, s) == HeaderCalls([CallsOpt(s.init), CallsOptExpr(s.forCond), CallsOpt(s.post)])
    ensures |ReplaceStmt(stmts, s)| <= 3
  {
    FindCallOptFirst(s.init);
    FindCallOptExprFirst(s.forCond);
    FindCallOptFirst(s.post);
    HeaderCallsCons(CallsOpt(s.init), [CallsOptExpr(s.forCond), CallsOpt(s.post)]);
    HeaderCallsCons(CallsOptExpr(s.forCond), [CallsOpt(s.post)]);
    HeaderCallsOne(CallsOpt(s.post));
    assert [CallsOpt(s.init), CallsOptExpr(s.forCond), CallsOpt(s.post)]
        == [CallsOpt(s.init)] + [CallsOptExpr(s.forCond), CallsOpt(s.post)];
    assert [CallsOptExpr(s.forCond), CallsOpt(s.post)] == [CallsOptExpr(s.forCond)] + [CallsOpt(s.post)];
  }

  /**
   An `if` neither of whose branches ran becomes the first call of its init and then
   of its condition; the `if` and its else are dropped.
   */
  lemma UnreachedIfKeepsCalls(stmts: set<NodeId>, s: Stmt)
    requires s.If? && s.body.id !in stmts && !Visited(stmts, s.els)
    ensures ReplaceStmt(stmts, s) == HeaderCalls([CallsOpt(s.init), CallsExpr(s.cond)])
  {
    FindCallOptFirst(s.init);
    FindCallExprFirst(s.cond);
    HeaderCallsCons(CallsOpt(s.init), [CallsExpr(s.cond)]);
    HeaderCallsOne(CallsExpr(s.cond));
    assert [CallsOpt(s.init), CallsExpr(s.cond)] == [CallsOpt(s.init)] + [CallsExpr(s.cond)];
  }

  /** An `if` with exactly one branch reached: the else's own replacement, or the `if` with its else cleared. */
  lemma OneBranchReached(stmts: set<NodeId>, s: Stmt)
    requires s.If?
    ensures s.body.id !in stmts && Visited(stmts, s.els) ==> ReplaceStmt(stmts, s) == ReplaceStmt(stmts, s.els.value)
    ensures s.body.id in stmts && !Visited(stmts, s.els) ==> ReplaceStmt(stmts, s) == [s.(els := None)]
  {
  }

  /** Statements other than range, for and if are kept whatever was reached. */
  lemma OtherStmtKept(stmts: set<NodeId>, s: Stmt)
    requires !s.Range? && !s.For? && !s.If?
    ensures ReplaceStmt(stmts, s) == [s]
  {
  }

  /** An `if` whose body and else both ran is dropped, as the source is written. */
  lemma BothBranchesReachedDropsIf(stmts: set<NodeId>, s: Stmt)
    requires s.If? && s.body.id in stmts && Visited(stmts, s.els)
    ensures ReplaceStmt(stmts, s) == []
  {
  }

  /* ---------------- replaced statements are fixed points ---------------- */

  predicate Fixed(stmts: set<NodeId>, t: Stmt) {
    ReplaceStmt(stmts, t) == [t]
  }

  lemma CallStmtsFixed(stmts: set<NodeId>, c: Option<CallExpr>)
    ensures forall t :: t in CallStmts(c) ==> Fixed(stmts, t) && t.ExprStmt?
  {
  }

  lemma {:induction false} ReplaceIsFixed(stmts: set<NodeId>, s: Stmt)
    ensures forall t :: t in ReplaceStmt(stmts, s) ==> Fixed(stmts, t)
    decreases s
  {
    match s
    case Range(_, _, _, _, x, body) =>
      CallStmtsFixed(stmts, FindCallExpr(x));
    case For(_, _, init, cond, post, body) =>
      CallStmtsFixed(stmts, FindCallOpt(init));
      CallStmtsFixed(stmts, FindCallOptExpr(cond));
      CallStmtsFixed(stmts, FindCallOpt(post));
    case If(id, p, init, cond, body, els) =>
      CallStmtsFixed(stmts, FindCallOpt(init));
      CallStmtsFixed(stmts, FindCallExpr(cond));
      if body.id !in stmts && Visited(stmts, els) {
        ReplaceIsFixed(stmts, els.value);
      }
    case _ =>
  }

  lemma {:induction false} FlatReplaceIsFixed(stmts: set<NodeId>, list: seq<Stmt>)
    ensures forall t :: t in FlatReplace(stmts, list) ==> Fixed(stmts, t)
  {
    if |list| > 0 {
      ReplaceIsFixed(stmts, list[0]);
      FlatReplaceIsFixed(stmts, list[1..]);
    }
  }

  /** What a fixed point looks like: a range or for keeps a reached body, an `if` a reached body and no else. */
  lemma FixedShape(stmts: set<NodeId>, t: Stmt)
    requires Fixed(stmts, t)
    ensures t.Range? ==> t.body.id in stmts
    ensures t.For? ==> t.body.id in stmts
    ensures t.If? ==> t.body.id in stmts && t.els.None?
  {
    match t
    case Range(_, _, _, _, x, body) =>
      CallStmtsFixed(stmts, FindCallExpr(x));
    case For(_, _, init, cond, post, body) =>
      CallStmtsFixed(stmts, FindCallOpt(init));
      CallStmtsFixed(stmts, FindCallOptExpr(cond));
      CallStmtsFixed(stmts, FindCallOpt(post));
    case If(_, _, init, cond, body, els) =>
      SizeListOne(t);
      CallStmtsFixed(stmts, FindCallOpt(init));
      CallStmtsFixed(stmts, FindCallExpr(cond));
    case _ =>
  }

  lemma TrimKeepsFixed(stmts: set<NodeId>, t: Stmt)
    requires Fixed(stmts, t)
    ensures Fixed(stmts, TrimStmt(stmts, t))
  {
    FixedShape(stmts, t);
  }

  lemma {:induction false} FlatReplaceOfFixed(stmts: set<NodeId>, xs: seq<Stmt>)
    requires forall t :: t in xs ==> Fixed(stmts, t)
    ensures FlatReplace(stmts, TrimStmts(stmts, xs)) == TrimStmts(stmts, xs)
  {
    if |xs| > 0 {
      TrimKeepsFixed(stmts, xs[0]);
      FlatReplaceOfFixed(stmts, xs[1..]);
      var ys := TrimStmts(stmts, xs);
      assert ys[0] == TrimStmt(stmts, xs[0]);
      assert ys[1..] == TrimStmts(stmts, xs[1..]);
    }
  }

  /* ---------------- idempotence of re-trimming ---------------- */

  lemma {:induction false} IdemList(stmts: set<NodeId>, list: seq<Stmt>)
    ensures TrimList(stmts, TrimList(stmts, list)) == TrimList(stmts, list)
    decreases SizeList(list), 2
  {
    var xs := FlatReplace(stmts, list);
    FlatReplaceIsFixed(stmts, list);
    FlatReplaceOfFixed(stmts, xs);
    IdemStmts(stmts, xs);
  }

  lemma {:induction false} IdemStmts(stmts: set<NodeId>, ts: seq<Stmt>)
    ensures TrimStmts(stmts, TrimStmts(stmts, ts)) == TrimStmts(stmts, ts)
    decreases SizeList(ts), 1
  {
    if |ts| > 0 {
      IdemStmt(stmts, ts[0]);
      IdemStmts(stmts, ts[1..]);
      var ys := TrimStmts(stmts, ts);
      assert ys[0] == TrimStmt(stmts, ts[0]);
      assert ys[1..] == TrimStmts(stmts, ts[1..]);
    }
  }

  lemma {:induction false} IdemBlock(stmts: set<NodeId>, b: Block)
    ensures TrimBlock(stmts, TrimBlock(stmts, b)) == TrimBlock(stmts, b)
    decreases SizeBlock(b), 0
  {
    IdemList(stmts, b.list);
  }

  lemma {:induction false} IdemOpt(stmts: set<NodeId>, s: Option<Stmt>)
    ensures TrimOpt(stmts, TrimOpt(stmts, s)) == TrimOpt(stmts, s)
    decreases SizeOpt(s), 1
  {
    if s.Some? {
      IdemStmt(stmts, s.value);
    }
  }

  lemma {:induction false} IdemOptExpr(stmts: set<NodeId>, e: Option<Expr>)
    ensures TrimOptExpr(stmts, TrimOptExpr(stmts, e)) == TrimOptExpr(stmts, e)
    decreases SizeOptExpr(e), 1
  {
    if e.Some? {
      IdemExpr(stmts, e.value);
    }
  }

  lemma {:induction false} IdemExprs(stmts: set<NodeId>, es: seq<Expr>)
    ensures TrimExprs(stmts, TrimExprs(stmts, es)) == TrimExprs(stmts, es)
    decreases SizeExprs(es), 1
  {
    if |es| > 0 {
      IdemExpr(stmts, es[0]);
      IdemExprs(stmts, es[1..]);
      var ys := TrimExprs(stmts, es);
      assert ys[0] == TrimExpr(stmts, es[0]);
      assert ys[1..] == TrimExprs(stmts, es[1..]);
    }
  }

  lemma {:induction false} IdemCall(stmts: set<NodeId>, c: CallExpr)
    ensures TrimCall(stmts, TrimCall(stmts, c)) == TrimCall(stmts, c)
    decreases SizeCall(c), 0
  {
    IdemExpr(stmts, c.fun);
    IdemExprs(stmts, c.args);
  }

  lemma {:induction false} IdemExpr(stmts: set<NodeId>, e: Expr)
    ensures TrimExpr(stmts, TrimExpr(stmts, e)) == TrimExpr(stmts, e)
    decreases SizeExpr(e), 0
  {
    match e
    case Ident(_, _) =>
    case IntLit(_, _) =>
    case Selector(x, _, _) => IdemExpr(stmts, x);
    case Index(x, _, i, _) => IdemExpr(stmts, x); IdemExpr(stmts, i);
    case AddrOf(_, x) => IdemExpr(stmts, x);
    case Call(c) => IdemCall(stmts, c);
    case FuncLit(_, _, b) => IdemBlock(stmts, b);
    case OtherExpr(_, _, cs) => IdemExprs(stmts, cs);
  }

  lemma {:induction false} IdemStmt(stmts: set<NodeId>, s: Stmt)
    ensures TrimStmt(stmts, TrimStmt(stmts, s)) == TrimStmt(stmts, s)
    decreases Size(s), 0
  {
    match s
    case BlockStmt(b) => IdemBlock(stmts, b);
    case If(_, _, init, cond, body, els) =>
      IdemOpt(stmts, init); IdemExpr(stmts, cond); IdemBlock(stmts, body); IdemOpt(stmts, els);
    case For(_, _, init, cond, post, body) =>
      IdemOpt(stmts, init); IdemOptExpr(stmts, cond); IdemOpt(stmts, post); IdemBlock(stmts, body);
    case Range(_, _, k, v, x, body) =>
      IdemOptExpr(stmts, k); IdemOptExpr(stmts, v); IdemExpr(stmts, x); IdemBlock(stmts, body);
    case Switch(_, _, init, tag, body) =>
      IdemOpt(stmts, init); IdemOptExpr(stmts, tag); IdemBlock(stmts, body);
    case TypeSwitch(_, _, init, a, body) =>
      IdemOpt(stmts, init); IdemStmt(stmts, a); IdemBlock(stmts, body);
    case Select(_, _, body) => IdemBlock(stmts, body);
    case CaseClause(_, _, es, _, body) => IdemExprs(stmts, es); IdemList(stmts, body);
    case CommClause(_, _, comm, _, body) => IdemOpt(stmts, comm); IdemList(stmts, body);
    case Labeled(_, _, _, inner) => IdemStmt(stmts, inner);
    case Branch(_, _, _) =>
    case ExprStmt(_, x) => IdemExpr(stmts, x);
    case Go(_, _, c) => IdemCall(stmts, c);
    case Assign(_, lhs, _, rhs) => IdemExprs(stmts, lhs); IdemExprs(stmts, rhs);
    case OtherStmt(_, _, _, es) => IdemExprs(stmts, es);
  }

  /* ---------------- the file ---------------- */

  /** Only reached function declarations survive, and every reached one does. */
  lemma {:induction false} KeptDeclsExact(funcs: set<NodeId>, ds: seq<Decl>)
    ensures forall d :: d in KeptDecls(funcs, ds) <==> d in ds && d.FuncDecl? && d.id in funcs
    ensures (forall i :: 0 <= i < |ds| ==> ds[i].FuncDecl? && ds[i].id in funcs) ==> KeptDecls(funcs, ds) == ds
  {
    if |ds| > 0 {
      KeptDeclsExact(funcs, ds[1..]);
      assert ds == [ds[0]] + ds[1..];
    }
  }

  lemma {:induction false} TrimDeclsKeepsFuncs(funcs: set<NodeId>, stmts: set<NodeId>, ds: seq<Decl>)
    requires forall i :: 0 <= i < |ds| ==> ds[i].FuncDecl? && ds[i].id in funcs
    ensures forall i :: 0 <= i < |TrimDecls(stmts, ds)| ==> TrimDecls(stmts, ds)[i].FuncDecl? && TrimDecls(stmts, ds)[i].id in funcs
  {
    if |ds| > 0 {
      TrimDeclsKeepsFuncs(funcs, stmts, ds[1..]);
    }
  }

  lemma {:induction false} IdemDecls(stmts: set<NodeId>, ds: seq<Decl>)
    ensures TrimDecls(stmts, TrimDecls(stmts, ds)) == TrimDecls(stmts, ds)
  {
    if |ds| > 0 {
      if ds[0].FuncDecl? && ds[0].fbody.Some? {
        IdemBlock(stmts, ds[0].fbody.value);
      }
      IdemDecls(stmts, ds[1..]);
    }
  }

  /** Trimming an already trimmed file against the same profile yields no further change. */
  lemma TrimFileIdempotent(funcs: set<NodeId>, stmts: set<NodeId>, f: File)
    ensures TrimFile(funcs, stmts, TrimFile(funcs, stmts, f)) == TrimFile(funcs, stmts, f)
  {
    var kept := KeptDecls(funcs, f.decls);
    KeptDeclsExact(funcs, f.decls);
    assert forall i :: 0 <= i < |kept| ==> kept[i].FuncDecl? && kept[i].id in funcs by {
      forall i | 0 <= i < |kept| ensures kept[i].FuncDecl? && kept[i].id in funcs {
        assert kept[i] in kept;
      }
    }
    TrimDeclsKeepsFuncs(funcs, stmts, kept);
    KeptDeclsExact(funcs, TrimDecls(stmts, kept));
    IdemDecls(stmts, kept);
  }
}

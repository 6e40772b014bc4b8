/**
 What the rewriter of build/rewrite.go does to the code, by comparison with
 the tracer. The two visitors differ in exactly two places: at an `if`,
 where the rewriter walks only the body and the else (turned into a block),
 and at an empty switch, type switch or select, which the rewriter leaves
 alone. Everywhere else they rewrite alike, so on code without those two
 constructs the rewriter inherits the tracer's round trip.
 */
module RewriteProps {
  import opened Ast
  import opened Trace
  import opened TraceProps
  import CoverWalk

  /* ---------------- code on which the two visitors agree ---------------- */

  predicate PlainExpr(e: Expr)
    decreases e, 1
  {
    match e
    case Ident(_, _) => true
    case IntLit(_, _) => true
    case Selector(x, _, _) => PlainExpr(x)
    case Index(x, _, i, _) => PlainExpr(x) && PlainExpr(i)
    case AddrOf(_, x) => PlainExpr(x)
    case Call(c) => PlainCall(c)
    case FuncLit(_, _, b) => PlainList(b.list)
    case OtherExpr(_, _, cs) => PlainExprs(cs)
  }

  predicate PlainCall(c: CallExpr)
    decreases c, 0
  {
    PlainExpr(c.fun) && PlainExprs(c.args)
  }

  predicate PlainExprs(es: seq<Expr>)
    decreases es, 1
  {
    |es| == 0 || (PlainExpr(es[0]) && PlainExprs(es[1..]))
  }

  predicate PlainOptExpr(e: Option<Expr>)
    decreases e, 1
  {
    e.Some? ==> PlainExpr(e.value)
  }

  predicate PlainList(ss: seq<Stmt>)
    decreases ss, 1
  {
    |ss| == 0 || (PlainStmt(ss[0]) && PlainList(ss[1..]))
  }

  predicate PlainOpt(s: Option<Stmt>)
    decreases s, 1
  {
    s.Some? ==> PlainStmt(s.value)
  }

  /** No `if` and no empty switch, type switch or select anywhere inside, function literals included. */
  predicate PlainStmt(s: Stmt)
    decreases s, 0
  {
    match s
    case BlockStmt(b) => PlainList(b.list)
    case If(_, _, _, _, _, _) => false
    case For(_, _, init, cond, post, body) => PlainOpt(init) && PlainOptExpr(cond) && PlainOpt(post) && PlainList(body.list)
    case Range(_, _, k, v, x, body) => PlainOptExpr(k) && PlainOptExpr(v) && PlainExpr(x) && PlainList(body.list)
    case Switch(_, _, init, tag, body) => |body.list| > 0 && PlainOpt(init) && PlainOptExpr(tag) && PlainList(body.list)
    case TypeSwitch(_, _, init, a, body) => |body.list| > 0 && PlainOpt(init) && PlainStmt(a) && PlainList(body.list)
    case Select(_, _, body) => |body.list| > 0 && PlainList(body.list)
    case CaseClause(_, _, es, _, body) => PlainExprs(es) && PlainList(body)
    case CommClause(_, _, comm, _, body) => PlainOpt(comm) && PlainList(body)
    case Labeled(_, _, _, inner) => PlainStmt(inner)
    case Branch(_, _, _) => true
    case ExprStmt(_, x) => PlainExpr(x)
    case Go(_, _, c) => PlainCall(c)
    case Assign(_, lhs, _, rhs) => PlainExprs(lhs) && PlainExprs(rhs)
    case OtherStmt(_, _, _, es) => PlainExprs(es)
  }

  predicate PlainSpecs(specs: seq<Spec>) {
    forall i :: 0 <= i < |specs| && specs[i].ValueSpec? ==> PlainExprs(specs[i].values)
  }

  predicate PlainDecls(ds: seq<Decl>) {
    forall i :: 0 <= i < |ds| ==>
      (ds[i].FuncDecl? && ds[i].fbody.Some? ==> PlainList(ds[i].fbody.value.list))
      && (ds[i].GenDecl? ==> PlainSpecs(ds[i].specs))
  }

  /* ---------------- the two walks agree there ---------------- */

  lemma {:induction false} AgreeExpr(ru: string, e: Expr)
    requires WFExpr(e) && PlainExpr(e)
    ensures WalkExpr(Rewriter, ru, e) == WalkExpr(Tracer, ru, e)
    decreases SizeExpr(e), 0, 0
  {
    match e
    case Ident(_, _) =>
    case IntLit(_, _) =>
    case Selector(x, _, _) => AgreeExpr(ru, x);
    case Index(x, _, i, _) => AgreeExpr(ru, x); AgreeExpr(ru, i);
    case AddrOf(_, x) => AgreeExpr(ru, x);
    case Call(c) => AgreeCall(ru, c);
    case FuncLit(_, _, body) => AgreeBlock(ru, body);
    case OtherExpr(_, _, cs) => AgreeExprs(ru, cs);
  }

  lemma {:induction false} AgreeCall(ru: string, c: CallExpr)
    requires WFCall(c) && PlainCall(c)
    ensures WalkCall(Rewriter, ru, c) == WalkCall(Tracer, ru, c)
    decreases SizeCall(c), 0, 0
  {
    AgreeExpr(ru, c.fun);
    AgreeExprs(ru, c.args);
  }

  lemma {:induction false} AgreeExprs(ru: string, es: seq<Expr>)
    requires WFExprs(es) && PlainExprs(es)
    ensures WalkExprs(Rewriter, ru, es) == WalkExprs(Tracer, ru, es)
    decreases SizeExprs(es), 1, 0
  {
    if |es| > 0 {
      AgreeExpr(ru, es[0]);
      AgreeExprs(ru, es[1..]);
    }
  }

  lemma {:induction false} AgreeOptExpr(ru: string, e: Option<Expr>)
    requires WFOptExpr(e) && PlainOptExpr(e)
    ensures WalkOptExpr(Rewriter, ru, e) == WalkOptExpr(Tracer, ru, e)
    decreases SizeOptExpr(e), 1, 0
  {
    if e.Some? {
      AgreeExpr(ru, e.value);
    }
  }

  /** The rewriter's stub counters leave a block's list as the tracer sees it. */
  lemma {:induction false} AgreeBlock(ru: string, b: Block)
    requires WFBlock(b) && PlainList(b.list)
    ensures WalkBlock(Rewriter, ru, b) == WalkBlock(Tracer, ru, b)
    decreases SizeBlock(b), 0, 0
  {
    AgreeList(ru, b.list);
  }

  lemma {:induction false} AgreeList(ru: string, ss: seq<Stmt>)
    requires WFStmts(ss) && PlainList(ss)
    ensures WalkList(Rewriter, ru, ss) == WalkList(Tracer, ru, ss)
    decreases SizeList(ss), 1, |ss|
  {
    if |ss| > 0 {
      AgreeStmt(ru, ss[0]);
      AgreeList(ru, ss[1..]);
    }
  }

  lemma {:induction false} AgreeOpt(ru: string, s: Option<Stmt>)
    requires WFOpt(s) && PlainOpt(s)
    ensures WalkOpt(Rewriter, ru, s) == WalkOpt(Tracer, ru, s)
    decreases SizeOpt(s), 1, 0
  {
    if s.Some? {
      AgreeStmt(ru, s.value);
    }
  }

  lemma {:induction false} AgreeStmt(ru: string, s: Stmt)
    requires WFStmt(s) && PlainStmt(s)
    ensures WalkStmt(Rewriter, ru, s) == WalkStmt(Tracer, ru, s)
    decreases Size(s), 0, 1
  {
    match s
    case BlockStmt(b) => AgreeBlock(ru, b);
    case For(_, _, init, cond, post, body) =>
      AgreeOpt(ru, init); AgreeOptExpr(ru, cond); AgreeOpt(ru, post); AgreeBlock(ru, body);
    case Range(_, _, k, v, x, body) =>
      AgreeOptExpr(ru, k); AgreeOptExpr(ru, v); AgreeExpr(ru, x); AgreeBlock(ru, body);
    case Switch(_, _, init, tag, body) =>
      AgreeOpt(ru, init); AgreeOptExpr(ru, tag); AgreeBlock(ru, body);
    case TypeSwitch(_, _, init, a, body) =>
      AgreeOpt(ru, init); AgreeStmt(ru, a); AgreeBlock(ru, body);
    case Select(_, _, body) => AgreeBlock(ru, body);
    case CaseClause(_, _, es, _, body) => AgreeExprs(ru, es); AgreeList(ru, body);
    case CommClause(_, _, comm, _, body) => AgreeOpt(ru, comm); AgreeList(ru, body);
    case Labeled(_, _, _, inner) => AgreeStmt(ru, inner);
    case Branch(_, _, _) =>
    case ExprStmt(_, x) => AgreeExpr(ru, x);
    case Go(_, _, c) =>
      assert SizeCall(c) == 1 + SizeExpr(c.fun) + SizeExprs(c.args);
      AgreeCall(ru, c);
    case Assign(_, lhs, _, rhs) => AgreeExprs(ru, lhs); AgreeExprs(ru, rhs);
    case OtherStmt(_, _, _, es) => AgreeExprs(ru, es);
  }

  lemma {:induction false} AgreeSpecs(ru: string, specs: seq<Spec>)
    requires WFSpecs(specs) && PlainSpecs(specs)
    ensures WalkSpecs(Rewriter, ru, specs) == WalkSpecs(Tracer, ru, specs)
  {
    if |specs| > 0 {
      assert WFSpecs(specs[1..]) && PlainSpecs(specs[1..]) by {
        forall i | 0 <= i < |specs[1..]| ensures specs[1..][i] == specs[i + 1] { }
      }
      AgreeSpecs(ru, specs[1..]);
      if specs[0].ValueSpec? {
        AgreeExprs(ru, specs[0].values);
      }
    }
  }

  lemma {:induction false} AgreeDecls(ru: string, ds: seq<Decl>)
    requires WFDecls(ds) && PlainDecls(ds)
    ensures WalkDecls(Rewriter, ru, ds) == WalkDecls(Tracer, ru, ds)
  {
    if |ds| > 0 {
      assert WFDecls(ds[1..]) && PlainDecls(ds[1..]) by {
        forall i | 0 <= i < |ds[1..]| ensures ds[1..][i] == ds[i + 1] { }
      }
      AgreeDecls(ru, ds[1..]);
      var d := ds[0];
      assert WFDecls([d]) && [d][0] == d;
      if d.FuncDecl? && d.fbody.Some? {
        AgreeBlock(ru, d.fbody.value);
      } else if d.GenDecl? {
        AgreeSpecs(ru, d.specs);
      }
    }
  }

  /** On a file with no `if` and no empty switch or select, the rewriter rewrites exactly as the tracer. */
  lemma RewriterIsTracer(ru: string, f: File)
    requires WFDecls(f.decls) && PlainDecls(f.decls)
    ensures WalkFile(Rewriter, ru, f) == WalkFile(Tracer, ru, f)
  {
    AgreeDecls(ru, f.decls);
  }

  /**
   On such a file the rewriter gives back, once untraced as the tracer's
   output, the file itself up to go-call positions.
   */
  lemma PlainRoundTrip(ru: string, f: File)
    requires WFDecls(f.decls) && PlainDecls(f.decls)
    ensures WalkFile(Rewriter, ru, f).Some? <==> AllBodies(f.decls)
    ensures WalkFile(Rewriter, ru, f).Some? ==> UntraceFile(Tracer, ru, WalkFile(Rewriter, ru, f).value) == CanonFile(Tracer, f)
  {
    RewriterIsTracer(ru, f);
    TraceRoundTrip(ru, f);
  }

  /* ---------------- where the two visitors differ ---------------- */

  /**
   The rewriter leaves an empty switch, type switch or select exactly as it
   was, header included, while the tracer still walks its header.
   */
  lemma RewriterSkipsEmpty(ru: string, s: Stmt)
    requires WFStmt(s) && (s.Switch? || s.TypeSwitch? || s.Select?) && |s.body.list| == 0
    ensures WalkStmt(Rewriter, ru, s) == s
    ensures s.Switch? ==>
      WalkStmt(Tracer, ru, s) == Switch(s.id, s.switchPos, WalkOpt(Tracer, ru, s.init), WalkOptExpr(Tracer, ru, s.tag), s.body)
  {
    assert WalkList(Tracer, ru, []) == [];
  }

  /**
   At an `if` the rewriter keeps the header as it is, so a function literal
   there gets no lookup, and puts the else in a block that starts where the
   body ends: an `else if` becomes the only statement of a new block closing
   where the inner `if` ends, and is walked there; an else block keeps its
   statements and closing brace.
   */
  lemma RewriterIf(ru: string, s: Stmt)
    requires WFStmt(s) && s.If?
    ensures var r := WalkStmt(Rewriter, ru, s);
      r.If? && r.init == s.init && r.cond == s.cond && r.body == WalkBlock(Rewriter, ru, s.body)
      && r.els.Some? == s.els.Some?
      && (s.els.Some? ==> r.els.value.BlockStmt? && r.els.value.block.lbrace == BlockEnd(s.body))
      && (s.els.Some? && s.els.value.If? ==>
            WFStmt(s.els.value)
            && r.els.value.block.list == [WalkStmt(Rewriter, ru, s.els.value)]
            && r.els.value.block.rbrace == StmtEnd(s.els.value))
      && (s.els.Some? && s.els.value.BlockStmt? ==>
            WFBlock(s.els.value.block)
            && r.els.value.block == WalkBlock(Rewriter, ru, s.els.value.block).(lbrace := BlockEnd(s.body)))
  {
    assert WFOpt(s.els);
    if s.els.Some? {
      var els := s.els.value;
      CoverWalk.ElseBlockFacts(s.body, els);
      var eb := CoverWalk.ElseBlock(s.body, els);
      var r := WalkStmt(Rewriter, ru, s);
      assert r == WalkIf(Rewriter, ru, s);
      assert r.els.value == BlockStmt(WalkBlock(Rewriter, ru, eb));
      if els.If? {
        assert WFStmts([els]) by { assert [els][0] == els; }
        assert WalkBlock(Rewriter, ru, eb).list == WalkList(Rewriter, ru, [els]);
        assert WalkList(Rewriter, ru, [els]) == [WalkStmt(Rewriter, ru, els)] + WalkList(Rewriter, ru, [els][1..]);
      } else {
        assert WFBlock(els.block);
        assert eb.list == els.block.list;
        assert WalkBlock(Rewriter, ru, eb).list == WalkList(Rewriter, ru, els.block.list);
        assert WalkBlock(Rewriter, ru, els.block).list == WalkList(Rewriter, ru, els.block.list);
      }
    }
  }
}

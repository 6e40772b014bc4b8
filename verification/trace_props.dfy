/**
 What the trace rewrite preserves. Removing the lookups and unwrapping the go
 calls of a traced file gives back the original file, up to the positions of
 the `go` calls, which the generated call does not keep. The rewriter gives
 back the file as it walks it: with every `if` header as it was and every
 else in the block the coverage pass puts it in, and with empty switches,
 type switches and selects untouched. The lookup that the
 walk adds before walking a body is the one the source adds first and then
 walks over, since walking the lookup changes nothing.
 */
module TraceProps {
  import opened Ast
  import opened Trace
  import CoverWalk

  /* ---------------- the original, up to go-call positions ---------------- */

  /** Where a spread call has its ellipsis once positions are forgotten. */
  const Spread: Pos := 1

  /** A call without positions, from its function, its arguments and whether it spreads its last one. */
  function Respread(fun: Expr, args: seq<Expr>, variadic: bool): (r: CallExpr)
    ensures (r.ellipsis != NoPos) == variadic
  {
    CallExpr(fun, NoPos, args, if variadic then Spread else NoPos, NoPos)
  }

  function CanonExpr(p: Pass, e: Expr): Expr
    decreases SizeExpr(e), 0
  {
    match e
    case Ident(_, _) => e
    case IntLit(_, _) => e
    case Selector(x, sp, sel) => Selector(CanonExpr(p, x), sp, sel)
    case Index(x, l, i, rb) => Index(CanonExpr(p, x), l, CanonExpr(p, i), rb)
    case AddrOf(op, x) => AddrOf(op, CanonExpr(p, x))
    case Call(c) => Call(CanonCall(p, c))
    case FuncLit(fp, params, body) => FuncLit(fp, params, CanonBlock(p, body))
    case OtherExpr(op, end, cs) => OtherExpr(op, end, CanonExprs(p, cs))
  }

  function CanonCall(p: Pass, c: CallExpr): CallExpr
    decreases SizeCall(c), 0
  {
    CallExpr(CanonExpr(p, c.fun), c.lparen, CanonExprs(p, c.args), c.ellipsis, c.rparen)
  }

  function CanonExprs(p: Pass, es: seq<Expr>): seq<Expr>
    decreases SizeExprs(es), 1
  {
    if |es| == 0 then [] else [CanonExpr(p, es[0])] + CanonExprs(p, es[1..])
  }

  function CanonOptExpr(p: Pass, e: Option<Expr>): Option<Expr>
    decreases SizeOptExpr(e), 1
  {
    if e.None? then None else Some(CanonExpr(p, e.value))
  }

  function CanonBlock(p: Pass, b: Block): Block
    decreases SizeBlock(b), 0
  {
    Block(b.id, b.lbrace, CanonList(p, b.list), b.rbrace)
  }

  function CanonList(p: Pass, ss: seq<Stmt>): seq<Stmt>
    decreases SizeList(ss), 1
  {
    if |ss| == 0 then [] else [CanonStmt(p, ss[0])] + CanonList(p, ss[1..])
  }

  function CanonOpt(p: Pass, s: Option<Stmt>): Option<Stmt>
    decreases SizeOpt(s), 1
  {
    if s.None? then None else Some(CanonStmt(p, s.value))
  }

  /** `ElseBlock` needs no more room than the else and a pair of braces. */
  lemma ElseBlockSize(body: Block, els: Stmt)
    requires els.If? || els.BlockStmt?
    ensures SizeBlock(CoverWalk.ElseBlock(body, els)) <= Size(els) + 2
  {
    SizeListOne(els);
  }

  /**
   The same tree, with every `go` call's parentheses and ellipsis reduced to
   whether it spreads. For the rewriter, an `if` keeps its header as it is and
   has its else in the block the walk gives it, and an empty switch, type
   switch or select is kept whole.
   */
  function CanonStmt(p: Pass, s: Stmt): Stmt
    decreases Size(s), 0
  {
    match s
    case BlockStmt(b) => BlockStmt(CanonBlock(p, b))
    case If(id, ip, init, cond, body, els) =>
      if p.Tracer? then If(id, ip, CanonOpt(p, init), CanonExpr(p, cond), CanonBlock(p, body), CanonOpt(p, els))
      else if els.Some? && (els.value.If? || els.value.BlockStmt?) then
        ElseBlockSize(body, els.value);
        If(id, ip, init, cond, CanonBlock(p, body), Some(BlockStmt(CanonBlock(p, CoverWalk.ElseBlock(body, els.value)))))
      else If(id, ip, init, cond, CanonBlock(p, body), CanonOpt(p, els))
    case For(id, fp, init, cond, post, body) => For(id, fp, CanonOpt(p, init), CanonOptExpr(p, cond), CanonOpt(p, post), CanonBlock(p, body))
    case Range(id, fp, k, v, x, body) => Range(id, fp, CanonOptExpr(p, k), CanonOptExpr(p, v), CanonExpr(p, x), CanonBlock(p, body))
    case Switch(id, sp, init, tag, body) =>
      if p.Rewriter? && |body.list| == 0 then s else Switch(id, sp, CanonOpt(p, init), CanonOptExpr(p, tag), CanonBlock(p, body))
    case TypeSwitch(id, sp, init, a, body) =>
      if p.Rewriter? && |body.list| == 0 then s else TypeSwitch(id, sp, CanonOpt(p, init), CanonStmt(p, a), CanonBlock(p, body))
    case Select(id, sp, body) => if p.Rewriter? && |body.list| == 0 then s else Select(id, sp, CanonBlock(p, body))
    case CaseClause(id, cp, es, colon, body) => CaseClause(id, cp, CanonExprs(p, es), colon, CanonList(p, body))
    case CommClause(id, cp, comm, colon, body) => CommClause(id, cp, CanonOpt(p, comm), colon, CanonList(p, body))
    case Labeled(id, lp, name, inner) => Labeled(id, lp, name, CanonStmt(p, inner))
    case Branch(_, _, _) => s
    case ExprStmt(id, x) => ExprStmt(id, CanonExpr(p, x))
    case Go(id, gp, c) =>
      assert SizeCall(c) == 1 + SizeExpr(c.fun) + SizeExprs(c.args);
      Go(id, gp, Respread(CanonExpr(p, c.fun), CanonExprs(p, c.args), c.ellipsis != NoPos))
    case Assign(id, lhs, define, rhs) => Assign(id, CanonExprs(p, lhs), define, CanonExprs(p, rhs))
    case OtherStmt(id, sp, end, es) => OtherStmt(id, sp, end, CanonExprs(p, es))
  }

  function CanonSpecs(p: Pass, specs: seq<Spec>): seq<Spec> {
    if |specs| == 0 then []
    else (if specs[0].ValueSpec? then [ValueSpec(specs[0].names, CanonExprs(p, specs[0].values))] else [specs[0]]) + CanonSpecs(p, specs[1..])
  }

  function CanonDecls(p: Pass, ds: seq<Decl>): seq<Decl> {
    if |ds| == 0 then []
    else
      var d := ds[0];
      var d' :=
        if d.GenDecl? then GenDecl(d.tok, CanonSpecs(p, d.specs))
        else if d.fbody.Some? then d.(fbody := Some(CanonBlock(p, d.fbody.value)))
        else d;
      [d'] + CanonDecls(p, ds[1..])
  }

  function CanonFile(p: Pass, f: File): File {
    File(CanonDecls(p, f.decls), f.imports, f.comments)
  }

  /* ---------------- undoing the trace rewrite ---------------- */

  lemma {:induction false} SizeListSuffix(ss: seq<Stmt>, k: nat)
    requires k <= |ss|
    ensures SizeList(ss[k..]) <= SizeList(ss)
  {
    if k > 0 {
      SizeListSuffix(ss[1..], k - 1);
      assert ss[1..][k - 1..] == ss[k..];
    }
  }

  /** What a generated go call holds is smaller than the call. */
  lemma UnwrapSmaller(ru: string, c: CallExpr)
    requires UnwrapGoFunc(ru, c).Some?
    ensures SizeExpr(UnwrapGoFunc(ru, c).value.0) + SizeExprs(UnwrapGoFunc(ru, c).value.1) < SizeCall(c)
  {
    var closure := c.args[0].call;
    assert SizeCall(c) == 1 + SizeExpr(c.fun) + SizeExprs(c.args);
    assert SizeExprs(c.args) == SizeExpr(c.args[0]) + SizeExprs(c.args[1..]);
    assert SizeExpr(c.args[0]) == 1 + SizeCall(closure);
    assert SizeCall(closure) == 1 + SizeExpr(closure.fun) + SizeExprs(closure.args);
    assert SizeExprs(closure.args) == SizeExpr(closure.args[0]) + SizeExprs(closure.args[1..]);
  }

  function UntraceExpr(p: Pass, ru: string, e: Expr): Expr
    decreases SizeExpr(e), 0
  {
    match e
    case Ident(_, _) => e
    case IntLit(_, _) => e
    case Selector(x, sp, sel) => Selector(UntraceExpr(p, ru, x), sp, sel)
    case Index(x, l, i, rb) => Index(UntraceExpr(p, ru, x), l, UntraceExpr(p, ru, i), rb)
    case AddrOf(op, x) => AddrOf(op, UntraceExpr(p, ru, x))
    case Call(c) => Call(UntraceCall(p, ru, c))
    case FuncLit(fp, params, body) => FuncLit(fp, params, UntraceBody(p, ru, body))
    case OtherExpr(op, end, cs) => OtherExpr(op, end, UntraceExprs(p, ru, cs))
  }

  function UntraceCall(p: Pass, ru: string, c: CallExpr): CallExpr
    decreases SizeCall(c), 0
  {
    CallExpr(UntraceExpr(p, ru, c.fun), c.lparen, UntraceExprs(p, ru, c.args), c.ellipsis, c.rparen)
  }

  function UntraceExprs(p: Pass, ru: string, es: seq<Expr>): seq<Expr>
    decreases SizeExprs(es), 1
  {
    if |es| == 0 then [] else [UntraceExpr(p, ru, es[0])] + UntraceExprs(p, ru, es[1..])
  }

  function UntraceOptExpr(p: Pass, ru: string, e: Option<Expr>): Option<Expr>
    decreases SizeOptExpr(e), 1
  {
    if e.None? then None else Some(UntraceExpr(p, ru, e.value))
  }

  /** A function body: its leading lookup is removed. */
  function UntraceBody(p: Pass, ru: string, b: Block): Block
    decreases SizeBlock(b), 0
  {
    SizeListSuffix(b.list, |b.list| - |DropIDLookup(ru, b.list)|);
    Block(b.id, b.lbrace, UntraceList(p, ru, DropIDLookup(ru, b.list)), b.rbrace)
  }

  function UntraceBlock(p: Pass, ru: string, b: Block): Block
    decreases SizeBlock(b), 0
  {
    Block(b.id, b.lbrace, UntraceList(p, ru, b.list), b.rbrace)
  }

  function UntraceList(p: Pass, ru: string, ss: seq<Stmt>): seq<Stmt>
    decreases SizeList(ss), 1
  {
    if |ss| == 0 then [] else [UntraceStmt(p, ru, ss[0])] + UntraceList(p, ru, ss[1..])
  }

  function UntraceOpt(p: Pass, ru: string, s: Option<Stmt>): Option<Stmt>
    decreases SizeOpt(s), 1
  {
    if s.None? then None else Some(UntraceStmt(p, ru, s.value))
  }

  /**
   Undoes the trace rewrite of one statement: a generated go call becomes the
   call it was made from. What the rewriter does not walk, an `if` header and
   an empty switch, type switch or select, is left as it is.
   */
  function UntraceStmt(p: Pass, ru: string, s: Stmt): Stmt
    decreases Size(s), 0
  {
    match s
    case BlockStmt(b) => BlockStmt(UntraceBlock(p, ru, b))
    case If(id, ip, init, cond, body, els) =>
      if p.Tracer? then If(id, ip, UntraceOpt(p, ru, init), UntraceExpr(p, ru, cond), UntraceBlock(p, ru, body), UntraceOpt(p, ru, els))
      else If(id, ip, init, cond, UntraceBlock(p, ru, body), UntraceOpt(p, ru, els))
    case For(id, fp, init, cond, post, body) =>
      For(id, fp, UntraceOpt(p, ru, init), UntraceOptExpr(p, ru, cond), UntraceOpt(p, ru, post), UntraceBlock(p, ru, body))
    case Range(id, fp, k, v, x, body) =>
      Range(id, fp, UntraceOptExpr(p, ru, k), UntraceOptExpr(p, ru, v), UntraceExpr(p, ru, x), UntraceBlock(p, ru, body))
    case Switch(id, sp, init, tag, body) =>
      if p.Rewriter? && |body.list| == 0 then s
      else Switch(id, sp, UntraceOpt(p, ru, init), UntraceOptExpr(p, ru, tag), UntraceBlock(p, ru, body))
    case TypeSwitch(id, sp, init, a, body) =>
      if p.Rewriter? && |body.list| == 0 then s
      else TypeSwitch(id, sp, UntraceOpt(p, ru, init), UntraceStmt(p, ru, a), UntraceBlock(p, ru, body))
    case Select(id, sp, body) => if p.Rewriter? && |body.list| == 0 then s else Select(id, sp, UntraceBlock(p, ru, body))
    case CaseClause(id, cp, es, colon, body) => CaseClause(id, cp, UntraceExprs(p, ru, es), colon, UntraceList(p, ru, body))
    case CommClause(id, cp, comm, colon, body) => CommClause(id, cp, UntraceOpt(p, ru, comm), colon, UntraceList(p, ru, body))
    case Labeled(id, lp, name, inner) => Labeled(id, lp, name, UntraceStmt(p, ru, inner))
    case Branch(_, _, _) => s
    case ExprStmt(id, x) => ExprStmt(id, UntraceExpr(p, ru, x))
    case Go(id, gp, c) =>
      var orig := UnwrapGoFunc(ru, c);
      if orig.Some? then
        UnwrapSmaller(ru, c);
        var (fun, args, variadic) := orig.value;
        Go(id, gp, Respread(UntraceExpr(p, ru, fun), UntraceExprs(p, ru, args), variadic))
      else Go(id, gp, UntraceCall(p, ru, c))
    case Assign(id, lhs, define, rhs) => Assign(id, UntraceExprs(p, ru, lhs), define, UntraceExprs(p, ru, rhs))
    case OtherStmt(id, sp, end, es) => OtherStmt(id, sp, end, UntraceExprs(p, ru, es))
  }

  function UntraceSpecs(p: Pass, ru: string, specs: seq<Spec>): seq<Spec> {
    if |specs| == 0 then []
    else (if specs[0].ValueSpec? then [ValueSpec(specs[0].names, UntraceExprs(p, ru, specs[0].values))] else [specs[0]]) + UntraceSpecs(p, ru, specs[1..])
  }

  function UntraceDecls(p: Pass, ru: string, ds: seq<Decl>): seq<Decl> {
    if |ds| == 0 then []
    else
      var d := ds[0];
      var d' :=
        if d.GenDecl? then GenDecl(d.tok, UntraceSpecs(p, ru, d.specs))
        else if d.fbody.Some? then d.(fbody := Some(UntraceBody(p, ru, d.fbody.value)))
        else d;
      [d'] + UntraceDecls(p, ru, ds[1..])
  }

  function UntraceFile(p: Pass, ru: string, f: File): File {
    File(UntraceDecls(p, ru, f.decls), f.imports, f.comments)
  }

  /* ---------------- the round trip ---------------- */

  lemma {:induction false} RoundTripExpr(p: Pass, ru: string, e: Expr)
    requires WFExpr(e)
    ensures UntraceExpr(p, ru, WalkExpr(p, ru, e)) == CanonExpr(p, e)
    decreases SizeExpr(e), 0, 0
  {
    match e
    case Ident(_, _) =>
    case IntLit(_, _) =>
    case Selector(x, _, _) => RoundTripExpr(p, ru, x);
    case Index(x, _, i, _) => RoundTripExpr(p, ru, x); RoundTripExpr(p, ru, i);
    case AddrOf(_, x) => RoundTripExpr(p, ru, x);
    case Call(c) => RoundTripCall(p, ru, c);
    case FuncLit(_, _, body) => RoundTripBody(p, ru, body);
    case OtherExpr(_, _, cs) => RoundTripExprs(p, ru, cs);
  }

  lemma {:induction false} RoundTripCall(p: Pass, ru: string, c: CallExpr)
    requires WFCall(c)
    ensures UntraceCall(p, ru, WalkCall(p, ru, c)) == CanonCall(p, c)
    decreases SizeCall(c), 0, 0
  {
    RoundTripExpr(p, ru, c.fun);
    RoundTripExprs(p, ru, c.args);
  }

  lemma {:induction false} RoundTripExprs(p: Pass, ru: string, es: seq<Expr>)
    requires WFExprs(es)
    ensures UntraceExprs(p, ru, WalkExprs(p, ru, es)) == CanonExprs(p, es)
    decreases SizeExprs(es), 1, 0
  {
    if |es| > 0 {
      RoundTripExpr(p, ru, es[0]);
      RoundTripExprs(p, ru, es[1..]);
      var w := WalkExprs(p, ru, es);
      assert w[0] == WalkExpr(p, ru, es[0]) && w[1..] == WalkExprs(p, ru, es[1..]);
    }
  }

  lemma {:induction false} RoundTripOptExpr(p: Pass, ru: string, e: Option<Expr>)
    requires WFOptExpr(e)
    ensures UntraceOptExpr(p, ru, WalkOptExpr(p, ru, e)) == CanonOptExpr(p, e)
    decreases SizeOptExpr(e), 1, 0
  {
    if e.Some? {
      RoundTripExpr(p, ru, e.value);
    }
  }

  /** A function body: the lookup the walk added is the one removed. */
  lemma {:induction false} RoundTripBody(p: Pass, ru: string, b: Block)
    requires WFBlock(b)
    ensures UntraceBody(p, ru, WithLookup(ru, WalkBlock(p, ru, b))) == CanonBlock(p, b)
    decreases SizeBlock(b), 0, 1
  {
    IDLookupRoundTrip(ru, WalkBlock(p, ru, b).list);
    RoundTripBlock(p, ru, b);
  }

  lemma {:induction false} RoundTripBlock(p: Pass, ru: string, b: Block)
    requires WFBlock(b)
    ensures UntraceBlock(p, ru, WalkBlock(p, ru, b)) == CanonBlock(p, b)
    decreases SizeBlock(b), 0, 0
  {
    RoundTripList(p, ru, b.list);
  }

  lemma {:induction false} RoundTripList(p: Pass, ru: string, ss: seq<Stmt>)
    requires WFStmts(ss)
    ensures UntraceList(p, ru, WalkList(p, ru, ss)) == CanonList(p, ss)
    decreases SizeList(ss), 1, |ss|
  {
    if |ss| > 0 {
      RoundTripStmt(p, ru, ss[0]);
      RoundTripList(p, ru, ss[1..]);
      var w := WalkList(p, ru, ss);
      assert w[0] == WalkStmt(p, ru, ss[0]) && w[1..] == WalkList(p, ru, ss[1..]);
    }
  }

  lemma {:induction false} RoundTripOpt(p: Pass, ru: string, s: Option<Stmt>)
    requires WFOpt(s)
    ensures UntraceOpt(p, ru, WalkOpt(p, ru, s)) == CanonOpt(p, s)
    decreases SizeOpt(s), 1, 0
  {
    if s.Some? {
      RoundTripStmt(p, ru, s.value);
    }
  }

  lemma {:induction false} RoundTripStmt(p: Pass, ru: string, s: Stmt)
    requires WFStmt(s)
    ensures UntraceStmt(p, ru, WalkStmt(p, ru, s)) == CanonStmt(p, s)
    decreases Size(s), 0, 1
  {
    match s
    case BlockStmt(b) => RoundTripBlock(p, ru, b);
    case If(_, _, init, cond, body, els) =>
      if p.Tracer? {
        RoundTripOpt(p, ru, init); RoundTripExpr(p, ru, cond); RoundTripBlock(p, ru, body); RoundTripOpt(p, ru, els);
      } else {
        RoundTripIf(ru, s);
      }
    case For(_, _, init, cond, post, body) =>
      RoundTripOpt(p, ru, init); RoundTripOptExpr(p, ru, cond); RoundTripOpt(p, ru, post); RoundTripBlock(p, ru, body);
    case Range(_, _, k, v, x, body) =>
      RoundTripOptExpr(p, ru, k); RoundTripOptExpr(p, ru, v); RoundTripExpr(p, ru, x); RoundTripBlock(p, ru, body);
    case Switch(_, _, init, tag, body) =>
      if p.Tracer? || |body.list| > 0 {
        RoundTripOpt(p, ru, init); RoundTripOptExpr(p, ru, tag); RoundTripBlock(p, ru, body);
      }
    case TypeSwitch(_, _, init, a, body) =>
      if p.Tracer? || |body.list| > 0 {
        RoundTripOpt(p, ru, init); RoundTripStmt(p, ru, a); RoundTripBlock(p, ru, body);
      }
    case Select(_, _, body) =>
      if p.Tracer? || |body.list| > 0 {
        RoundTripBlock(p, ru, body);
      }
    case CaseClause(_, _, es, _, body) => RoundTripExprs(p, ru, es); RoundTripList(p, ru, body);
    case CommClause(_, _, comm, _, body) => RoundTripOpt(p, ru, comm); RoundTripList(p, ru, body);
    case Labeled(_, _, _, inner) => RoundTripStmt(p, ru, inner);
    case Branch(_, _, _) =>
    case ExprStmt(_, x) => RoundTripExpr(p, ru, x);
    case Go(_, _, c) =>
      assert SizeCall(c) == 1 + SizeExpr(c.fun) + SizeExprs(c.args);
      GoFuncRoundTrip(ru, WalkCall(p, ru, c));
      RoundTripExpr(p, ru, c.fun);
      RoundTripExprs(p, ru, c.args);
    case Assign(_, lhs, _, rhs) => RoundTripExprs(p, ru, lhs); RoundTripExprs(p, ru, rhs);
    case OtherStmt(_, _, _, es) => RoundTripExprs(p, ru, es);
  }

  /** The rewriter's `if`: the header comes back as it was, and the else as the block it was walked in. */
  lemma {:induction false} RoundTripIf(ru: string, s: Stmt)
    requires WFStmt(s) && s.If?
    ensures UntraceStmt(Rewriter, ru, WalkStmt(Rewriter, ru, s)) == CanonStmt(Rewriter, s)
    decreases Size(s), 0, 0
  {
    assert WFOpt(s.els);
    RoundTripBlock(Rewriter, ru, s.body);
    var r := WalkStmt(Rewriter, ru, s);
    assert r == WalkIf(Rewriter, ru, s);
    if s.els.Some? {
      var els := s.els.value;
      CoverWalk.ElseBlockFacts(s.body, els);
      var eb := CoverWalk.ElseBlock(s.body, els);
      assert SizeOpt(s.els) == Size(els);
      RoundTripBlock(Rewriter, ru, eb);
      var w := WalkBlock(Rewriter, ru, eb);
      assert r.els == Some(BlockStmt(w));
      assert UntraceOpt(Rewriter, ru, r.els) == Some(BlockStmt(UntraceBlock(Rewriter, ru, w)));
      assert UntraceBlock(Rewriter, ru, w) == CanonBlock(Rewriter, eb);
      assert CanonStmt(Rewriter, s).els == Some(BlockStmt(CanonBlock(Rewriter, eb)));
    }
  }

  lemma {:induction false} RoundTripSpecs(p: Pass, ru: string, specs: seq<Spec>)
    requires WFSpecs(specs)
    ensures UntraceSpecs(p, ru, WalkSpecs(p, ru, specs)) == CanonSpecs(p, specs)
  {
    if |specs| > 0 {
      assert WFSpecs(specs[1..]) by {
        forall i | 0 <= i < |specs[1..]| && specs[1..][i].ValueSpec? ensures WFExprs(specs[1..][i].values) {
          assert specs[1..][i] == specs[i + 1];
        }
      }
      RoundTripSpecs(p, ru, specs[1..]);
      if specs[0].ValueSpec? {
        RoundTripExprs(p, ru, specs[0].values);
      }
      var w := WalkSpecs(p, ru, specs);
      assert w[1..] == WalkSpecs(p, ru, specs[1..]);
    }
  }

  lemma {:induction false} RoundTripDecls(p: Pass, ru: string, ds: seq<Decl>)
    requires WFDecls(ds) && AllBodies(ds)
    ensures UntraceDecls(p, ru, WalkDecls(p, ru, ds).value) == CanonDecls(p, ds)
  {
    if |ds| > 0 {
      assert WFDecls(ds[1..]) && AllBodies(ds[1..]) by {
        forall i | 0 <= i < |ds[1..]| ensures ds[1..][i] == ds[i + 1] { }
      }
      assert WFDecls([ds[0]]) by {
        assert [ds[0]][0] == ds[0];
      }
      RoundTripDecls(p, ru, ds[1..]);
      var d := ds[0];
      if d.FuncDecl? {
        assert WFBlock(d.fbody.value) by {
          assert WFDecls([d]) && [d][0] == d;
        }
        RoundTripBody(p, ru, d.fbody.value);
      } else {
        assert WFSpecs(d.specs) by {
          assert WFDecls([d]) && [d][0] == d;
        }
        RoundTripSpecs(p, ru, d.specs);
      }
      var w := WalkDecls(p, ru, ds).value;
      assert w[0] == WalkDecl(p, ru, d).value && w[1..] == WalkDecls(p, ru, ds[1..]).value;
    }
  }

  /**
   Tracing a file loses nothing: undoing it gives back the file, up to the
   positions of the go calls. It fails only on a function declaration
   without a body.
   */
  lemma TraceRoundTrip(ru: string, f: File)
    requires WFDecls(f.decls)
    ensures WalkFile(Tracer, ru, f).Some? <==> AllBodies(f.decls)
    ensures WalkFile(Tracer, ru, f).Some? ==> UntraceFile(Tracer, ru, WalkFile(Tracer, ru, f).value) == CanonFile(Tracer, f)
  {
    if AllBodies(f.decls) {
      RoundTripDecls(Tracer, ru, f.decls);
    }
  }

  /**
   Rewriting a file loses nothing either: undoing it gives back the file as
   the rewriter walks it, up to the positions of the go calls. It fails only
   on a function declaration without a body.
   */
  lemma RewriteRoundTrip(ru: string, f: File)
    requires WFDecls(f.decls)
    ensures WalkFile(Rewriter, ru, f).Some? <==> AllBodies(f.decls)
    ensures WalkFile(Rewriter, ru, f).Some? ==> UntraceFile(Rewriter, ru, WalkFile(Rewriter, ru, f).value) == CanonFile(Rewriter, f)
  {
    if AllBodies(f.decls) {
      RoundTripDecls(Rewriter, ru, f.decls);
    }
  }

  /* ---------------- adding the lookup before or after walking ---------------- */

  lemma WalkLookupInert(p: Pass, ru: string, ru': string)
    ensures WFStmts(IDLookup(ru))
    ensures WalkList(p, ru', IDLookup(ru)) == IDLookup(ru)
  {
    var a, u := IDAssign(ru), IDUse();
    var rhs := a.rhs;
    assert WFExprs(rhs) by {
      assert WFExpr(rhs[0].call.fun);
      assert WFCall(rhs[0].call);
    }
    assert WFStmt(a) && WFStmt(u);
    assert WalkExprs(p, ru', [Ident(NoPos, TraceIdName)]) == [Ident(NoPos, TraceIdName)];
    assert WalkExprs(p, ru', [Ident(NoPos, "_")]) == [Ident(NoPos, "_")];
    assert WalkExprs(p, ru', []) == [];
    var sel := Selector(Ident(NoPos, ru), NoPos, "TraceID");
    assert WalkExpr(p, ru', sel) == sel;
    assert WalkCall(p, ru', rhs[0].call) == rhs[0].call;
    assert WalkExprs(p, ru', rhs) == rhs;
    assert WalkStmt(p, ru', a) == a;
    assert WalkStmt(p, ru', u) == u;
    assert IDLookup(ru)[1..] == [u];
    assert [u][1..] == [];
  }

  lemma {:induction false} WalkListAppend(p: Pass, ru: string, a: seq<Stmt>, b: seq<Stmt>)
    requires WFStmts(a) && WFStmts(b)
    ensures WFStmts(a + b)
    ensures WalkList(p, ru, a + b) == WalkList(p, ru, a) + WalkList(p, ru, b)
  {
    var ab := a + b;
    if |a| > 0 {
      assert ab[1..] == a[1..] + b;
      assert ab[0] == a[0];
      WalkListAppend(p, ru, a[1..], b);
      assert WFStmts(ab);
      calc {
        WalkList(p, ru, ab);
        [WalkStmt(p, ru, ab[0])] + WalkList(p, ru, ab[1..]);
        [WalkStmt(p, ru, a[0])] + (WalkList(p, ru, a[1..]) + WalkList(p, ru, b));
        WalkList(p, ru, a) + WalkList(p, ru, b);
      }
    } else {
      assert ab == b;
    }
  }

  /**
   The source puts the lookup into a body and then walks the body, lookup
   included; the walk here walks the body first. Both give the same block.
   */
  lemma LookupThenWalk(p: Pass, ru: string, b: Block)
    requires WFBlock(b)
    ensures WFBlock(WithLookup(ru, b))
    ensures WalkBlock(p, ru, WithLookup(ru, b)) == WithLookup(ru, WalkBlock(p, ru, b))
  {
    if |b.list| > 0 {
      WalkLookupInert(p, ru, ru);
      WalkListAppend(p, ru, IDLookup(ru), b.list);
      assert WithLookup(ru, b).list[0] == IDAssign(ru);
    }
  }
}

/**
 The instrumenting walk of build/cover.go (`fileCover.Visit` driven by
 `ast.Walk`): every block gets its counters, the bodies of case and comm
 clauses get theirs, an `else if` is first wrapped in a block so that it has
 a place for a counter, and empty switches and selects are left alone.
 Blocks are recorded in the order the source records them: all counters of a
 list first, then those of the statements nested in it.
 */
module CoverWalk {
  import opened Ast
  import opened Cover

  type Blocks = seq<BasicBlock>

  /* ---------------- facts about stripping that the walk's termination uses ---------------- */

  lemma {:induction false} StripSize(pkg: string, ss: seq<Stmt>)
    ensures SizeList(Strip(pkg, ss)) <= SizeList(ss)
  {
    if |ss| > 0 {
      StripSize(pkg, ss[1..]);
      if !IsCounter(pkg, ss[0]) {
        SizeListAppend([ss[0]], Strip(pkg, ss[1..]));
        SizeListOne(ss[0]);
      } else {
        assert Strip(pkg, ss) == Strip(pkg, ss[1..]);
      }
    }
  }

  lemma {:induction false} StripWF(pkg: string, ss: seq<Stmt>)
    requires WFStmts(ss)
    ensures WFStmts(Strip(pkg, ss))
  {
    if |ss| > 0 {
      StripWF(pkg, ss[1..]);
      var rest := Strip(pkg, ss[1..]);
      var r := Strip(pkg, ss);
      forall i | 0 <= i < |r| ensures WFStmt(r[i]) {
        if !IsCounter(pkg, ss[0]) && i > 0 {
          assert r[i] == rest[i - 1];
        }
      }
    }
  }

  /** Peeling the first statement off a list that is walked with counters skipped. */
  lemma StripCons(pkg: string, out: seq<Stmt>)
    requires |out| > 0 && WFStmts(Strip(pkg, out))
    ensures WFStmts(Strip(pkg, out[1..]))
    ensures !IsCounter(pkg, out[0]) ==> WFStmt(out[0]) && Size(out[0]) <= SizeList(Strip(pkg, out))
    ensures SizeList(Strip(pkg, out[1..])) <= SizeList(Strip(pkg, out))
  {
    var rest := Strip(pkg, out[1..]);
    if !IsCounter(pkg, out[0]) {
      assert Strip(pkg, out) == [out[0]] + rest;
      assert Strip(pkg, out)[0] == out[0];
      SizeListAppend([out[0]], rest);
      SizeListOne(out[0]);
      forall i | 0 <= i < |rest| ensures WFStmt(rest[i]) {
        assert rest[i] == Strip(pkg, out)[i + 1];
      }
    } else {
      assert Strip(pkg, out) == rest;
    }
  }

  /** The block an `else` is walked as: an `else if` wrapped in a hidden block, an else block moved back to the if-body's end. */
  function ElseBlock(body: Block, els: Stmt): (r: Block)
    requires els.If? || els.BlockStmt?
  {
    if els.If? then Block(NoId, BlockEnd(body), [els], StmtEnd(els))
    else Block(els.block.id, BlockEnd(body), els.block.list, els.block.rbrace)
  }

  lemma ElseBlockFacts(body: Block, els: Stmt)
    requires (els.If? || els.BlockStmt?) && WFStmt(els)
    ensures SizeBlock(ElseBlock(body, els)) <= Size(els) + 2
    ensures WFBlock(ElseBlock(body, els))
  {
    SizeListOne(els);
  }

  /* ---------------- the walk ---------------- */

  function CovExpr(pkg: string, bs: Blocks, e: Expr): (r: (Expr, Blocks))
    requires WFExpr(e)
    ensures bs <= r.1
    decreases SizeExpr(e), 0, 0
  {
    match e
    case Ident(_, _) => (e, bs)
    case IntLit(_, _) => (e, bs)
    case Selector(x, p, sel) =>
      var (x', b1) := CovExpr(pkg, bs, x);
      (Selector(x', p, sel), b1)
    case Index(x, l, i, rb) =>
      var (x', b1) := CovExpr(pkg, bs, x);
      var (i', b2) := CovExpr(pkg, b1, i);
      (Index(x', l, i', rb), b2)
    case AddrOf(p, x) =>
      var (x', b1) := CovExpr(pkg, bs, x);
      (AddrOf(p, x'), b1)
    case Call(c) =>
      var (c', b1) := CovCall(pkg, bs, c);
      (Call(c'), b1)
    case FuncLit(p, params, body) =>
      var (body', b1) := CovBlock(pkg, bs, body);
      (FuncLit(p, params, body'), b1)
    case OtherExpr(p, end, cs) =>
      var (cs', b1) := CovExprs(pkg, bs, cs);
      (OtherExpr(p, end, cs'), b1)
  }

  function CovCall(pkg: string, bs: Blocks, c: CallExpr): (r: (CallExpr, Blocks))
    requires WFCall(c)
    ensures bs <= r.1
    decreases SizeCall(c), 0, 0
  {
    var (fun', b1) := CovExpr(pkg, bs, c.fun);
    var (args', b2) := CovExprs(pkg, b1, c.args);
    (CallExpr(fun', c.lparen, args', c.ellipsis, c.rparen), b2)
  }

  function CovExprs(pkg: string, bs: Blocks, es: seq<Expr>): (r: (seq<Expr>, Blocks))
    requires WFExprs(es)
    ensures bs <= r.1 && |r.0| == |es|
    decreases SizeExprs(es), 1, 0
  {
    if |es| == 0 then ([], bs)
    else
      var (e', b1) := CovExpr(pkg, bs, es[0]);
      var (rest, b2) := CovExprs(pkg, b1, es[1..]);
      ([e'] + rest, b2)
  }

  function CovOptExpr(pkg: string, bs: Blocks, e: Option<Expr>): (r: (Option<Expr>, Blocks))
    requires WFOptExpr(e)
    ensures bs <= r.1 && r.0.Some? == e.Some?
    decreases SizeOptExpr(e), 1, 0
  {
    if e.None? then (None, bs)
    else
      var (x, b1) := CovExpr(pkg, bs, e.value);
      (Some(x), b1)
  }

  /**
   A block: a list of clauses has each clause body instrumented, all of them
   before any is walked into; any other list is instrumented from the left
   brace to just past the right brace, then walked into.
   */
  function CovBlock(pkg: string, bs: Blocks, b: Block): (r: (Block, Blocks))
    requires WFBlock(b)
    ensures bs <= r.1 && r.0.id == b.id && r.0.lbrace == b.lbrace && r.0.rbrace == b.rbrace
    decreases SizeBlock(b), 0, 0
  {
    if |b.list| > 0 && IsClause(b.list[0]) then
      var (bodies, b1) := ClauseCounters(pkg, bs, b.list);
      var (clauses, b2) := WalkClauses(pkg, b1, b.list, bodies);
      (Block(b.id, b.lbrace, clauses, b.rbrace), b2)
    else
      var (out, b1) := AddCounters(pkg, bs, b.lbrace, b.rbrace + 1, b.list, true);
      AddCountersSpec(pkg, bs, b.lbrace, b.rbrace + 1, b.list, true);
      StripSize(pkg, b.list);
      StripWF(pkg, b.list);
      var (list', b2) := WalkOut(pkg, b1, out);
      (Block(b.id, b.lbrace, list', b.rbrace), b2)
  }

  /** The first pass over a clause list: each clause body gets its counters, spanning the clause. */
  function ClauseCounters(pkg: string, bs: Blocks, cs: seq<Stmt>): (r: (seq<seq<Stmt>>, Blocks))
    requires forall i :: 0 <= i < |cs| ==> cs[i].CaseClause? || cs[i].CommClause?
    ensures bs <= r.1 && |r.0| == |cs|
    ensures forall i :: 0 <= i < |cs| ==> Strip(pkg, r.0[i]) == Strip(pkg, cs[i].clauseBody)
    decreases |cs|
  {
    if |cs| == 0 then ([], bs)
    else
      var c := cs[0];
      var (body, b1) := AddCounters(pkg, bs, StmtPos(c), StmtEnd(c), c.clauseBody, false);
      AddCountersSpec(pkg, bs, StmtPos(c), StmtEnd(c), c.clauseBody, false);
      var (rest, b2) := ClauseCounters(pkg, b1, cs[1..]);
      ([body] + rest, b2)
  }

  /** The second pass over a clause list: each clause, with its new body, is walked into. */
  function WalkClauses(pkg: string, bs: Blocks, cs: seq<Stmt>, bodies: seq<seq<Stmt>>): (r: (seq<Stmt>, Blocks))
    requires |bodies| == |cs|
    requires forall i :: 0 <= i < |cs| ==> (cs[i].CaseClause? || cs[i].CommClause?) && WFStmt(cs[i])
    requires forall i :: 0 <= i < |cs| ==> Strip(pkg, bodies[i]) == Strip(pkg, cs[i].clauseBody)
    ensures bs <= r.1 && |r.0| == |cs|
    decreases SizeList(cs), 1, |cs|
  {
    if |cs| == 0 then ([], bs)
    else
      var (c', b1) := WalkClause(pkg, bs, cs[0], bodies[0]);
      var (rest, b2) := WalkClauses(pkg, b1, cs[1..], bodies[1..]);
      ([c'] + rest, b2)
  }

  function WalkClause(pkg: string, bs: Blocks, c: Stmt, body: seq<Stmt>): (r: (Stmt, Blocks))
    requires IsClause(c) && WFStmt(c) && Strip(pkg, body) == Strip(pkg, c.clauseBody)
    ensures bs <= r.1
    decreases Size(c), 1, 0
  {
    StripSize(pkg, c.clauseBody);
    StripWF(pkg, c.clauseBody);
    match c
    case CaseClause(id, p, es, colon, _) =>
      var (es', b1) := CovExprs(pkg, bs, es);
      var (body', b2) := WalkOut(pkg, b1, body);
      (CaseClause(id, p, es', colon, body'), b2)
    case CommClause(id, p, comm, colon, _) =>
      var (comm', b1) := CovOpt(pkg, bs, comm);
      var (body', b2) := WalkOut(pkg, b1, body);
      (CommClause(id, p, comm', colon, body'), b2)
  }

  /** Walks an instrumented list; the counters it holds are left as they are, as walking one changes nothing. */
  function WalkOut(pkg: string, bs: Blocks, out: seq<Stmt>): (r: (seq<Stmt>, Blocks))
    requires WFStmts(Strip(pkg, out))
    ensures bs <= r.1 && |r.0| == |out|
    decreases SizeList(Strip(pkg, out)), 1, |out|
  {
    if |out| == 0 then ([], bs)
    else
      StripCons(pkg, out);
      if IsCounter(pkg, out[0]) then
        var (rest, b1) := WalkOut(pkg, bs, out[1..]);
        ([out[0]] + rest, b1)
      else
        var (s', b1) := CovStmt(pkg, bs, out[0]);
        var (rest, b2) := WalkOut(pkg, b1, out[1..]);
        ([s'] + rest, b2)
  }

  function CovOpt(pkg: string, bs: Blocks, s: Option<Stmt>): (r: (Option<Stmt>, Blocks))
    requires WFOpt(s)
    ensures bs <= r.1 && r.0.Some? == s.Some?
    decreases SizeOpt(s), 1, 0
  {
    if s.None? then (None, bs)
    else
      var (x, b1) := CovStmt(pkg, bs, s.value);
      (Some(x), b1)
  }

  function CovStmt(pkg: string, bs: Blocks, s: Stmt): (r: (Stmt, Blocks))
    requires WFStmt(s)
    ensures bs <= r.1
    ensures StmtId(r.0) == StmtId(s)
    ensures (s.Switch? || s.TypeSwitch? || s.Select?) && |s.body.list| == 0 ==> r == (s, bs)
    decreases Size(s), 0, 1
  {
    match s
    case BlockStmt(b) =>
      var (b', b1) := CovBlock(pkg, bs, b);
      (BlockStmt(b'), b1)
    case If(_, _, _, _, _, _) => CovIf(pkg, bs, s)
    case For(_, _, _, _, _, _) => CovLoop(pkg, bs, s)
    case Range(_, _, _, _, _, _) => CovLoop(pkg, bs, s)
    case Switch(_, _, _, _, body) => if |body.list| == 0 then (s, bs) else CovSwitch(pkg, bs, s)
    case TypeSwitch(_, _, _, _, body) => if |body.list| == 0 then (s, bs) else CovSwitch(pkg, bs, s)
    case Select(_, _, body) => if |body.list| == 0 then (s, bs) else CovSwitch(pkg, bs, s)
    case CaseClause(_, _, _, _, _) => CovClause(pkg, bs, s)
    case CommClause(_, _, _, _, _) => CovClause(pkg, bs, s)
    case Labeled(id, p, name, inner) =>
      var (inner', b1) := CovStmt(pkg, bs, inner);
      (Labeled(id, p, name, inner'), b1)
    case Branch(_, _, _) => (s, bs)
    case ExprStmt(id, x) =>
      var (x', b1) := CovExpr(pkg, bs, x);
      (ExprStmt(id, x'), b1)
    case Go(id, p, c) =>
      var (c', b1) := CovCall(pkg, bs, c);
      (Go(id, p, c'), b1)
    case Assign(id, lhs, define, rhs) =>
      var (lhs', b1) := CovExprs(pkg, bs, lhs);
      var (rhs', b2) := CovExprs(pkg, b1, rhs);
      (Assign(id, lhs', define, rhs'), b2)
    case OtherStmt(id, p, end, es) =>
      var (es', b1) := CovExprs(pkg, bs, es);
      (OtherStmt(id, p, end, es'), b1)
  }

  /** Only the body and the else of an if are walked, never its init or condition. */
  function CovIf(pkg: string, bs: Blocks, s: Stmt): (r: (Stmt, Blocks))
    requires s.If? && WFStmt(s)
    ensures bs <= r.1
    decreases Size(s), 0, 0
  {
    var (body', b1) := CovBlock(pkg, bs, s.body);
    if s.els.None? then (If(s.id, s.ifPos, s.init, s.cond, body', None), b1)
    else
      assert WFOpt(s.els);
      assert SizeOpt(s.els) == Size(s.els.value);
      ElseBlockFacts(s.body, s.els.value);
      var (w', b2) := CovBlock(pkg, b1, ElseBlock(s.body, s.els.value));
      (If(s.id, s.ifPos, s.init, s.cond, body', Some(BlockStmt(w'))), b2)
  }

  function CovLoop(pkg: string, bs: Blocks, s: Stmt): (r: (Stmt, Blocks))
    requires (s.For? || s.Range?) && WFStmt(s)
    ensures bs <= r.1
    decreases Size(s), 0, 0
  {
    match s
    case For(id, p, init, cond, post, body) =>
      var (init', b1) := CovOpt(pkg, bs, init);
      var (cond', b2) := CovOptExpr(pkg, b1, cond);
      var (post', b3) := CovOpt(pkg, b2, post);
      var (body', b4) := CovBlock(pkg, b3, body);
      (For(id, p, init', cond', post', body'), b4)
    case Range(id, p, k, v, x, body) =>
      var (k', b1) := CovOptExpr(pkg, bs, k);
      var (v', b2) := CovOptExpr(pkg, b1, v);
      var (x', b3) := CovExpr(pkg, b2, x);
      var (body', b4) := CovBlock(pkg, b3, body);
      (Range(id, p, k', v', x', body'), b4)
  }

  /** A switch, type switch or select with at least one clause. */
  function CovSwitch(pkg: string, bs: Blocks, s: Stmt): (r: (Stmt, Blocks))
    requires (s.Switch? || s.TypeSwitch? || s.Select?) && WFStmt(s)
    ensures bs <= r.1
    decreases Size(s), 0, 0
  {
    match s
    case Switch(id, p, init, tag, body) =>
      var (init', b1) := CovOpt(pkg, bs, init);
      var (tag', b2) := CovOptExpr(pkg, b1, tag);
      var (body', b3) := CovBlock(pkg, b2, body);
      (Switch(id, p, init', tag', body'), b3)
    case TypeSwitch(id, p, init, a, body) =>
      var (init', b1) := CovOpt(pkg, bs, init);
      var (a', b2) := CovStmt(pkg, b1, a);
      var (body', b3) := CovBlock(pkg, b2, body);
      (TypeSwitch(id, p, init', a', body'), b3)
    case Select(id, p, body) =>
      var (body', b1) := CovBlock(pkg, bs, body);
      (Select(id, p, body'), b1)
  }

  /** A clause met outside a clause list; its body is walked as it stands. */
  function CovClause(pkg: string, bs: Blocks, s: Stmt): (r: (Stmt, Blocks))
    requires IsClause(s) && WFStmt(s)
    ensures bs <= r.1
    decreases Size(s), 0, 0
  {
    StripSize(pkg, s.clauseBody);
    StripWF(pkg, s.clauseBody);
    match s
    case CaseClause(id, p, es, colon, body) =>
      var (es', b1) := CovExprs(pkg, bs, es);
      var (body', b2) := WalkOut(pkg, b1, body);
      (CaseClause(id, p, es', colon, body'), b2)
    case CommClause(id, p, comm, colon, body) =>
      var (comm', b1) := CovOpt(pkg, bs, comm);
      var (body', b2) := WalkOut(pkg, b1, body);
      (CommClause(id, p, comm', colon, body'), b2)
  }

  /* ---------------- a whole file ---------------- */

  /** Only the values of value specs can hold function literals, hence blocks. */
  function CovSpecs(pkg: string, bs: Blocks, specs: seq<Spec>): (r: (seq<Spec>, Blocks))
    requires WFSpecs(specs)
    ensures bs <= r.1 && |r.0| == |specs|
    decreases |specs|
  {
    if |specs| == 0 then ([], bs)
    else
      var (sp, b1) :=
        if specs[0].ValueSpec? then
          var (vs, b) := CovExprs(pkg, bs, specs[0].values);
          (ValueSpec(specs[0].names, vs), b)
        else (specs[0], bs);
      var (rest, b2) := CovSpecs(pkg, b1, specs[1..]);
      ([sp] + rest, b2)
  }

  function CovDecls(pkg: string, bs: Blocks, ds: seq<Decl>): (r: (seq<Decl>, Blocks))
    requires WFDecls(ds)
    ensures bs <= r.1 && |r.0| == |ds|
    decreases |ds|
  {
    if |ds| == 0 then ([], bs)
    else
      var (d, b1) :=
        match ds[0]
        case FuncDecl(id, p, name, typeEnd, body) =>
          if body.None? then (ds[0], bs)
          else
            var (body', b) := CovBlock(pkg, bs, body.value);
            (FuncDecl(id, p, name, typeEnd, Some(body')), b)
        case GenDecl(tok, specs) =>
          var (specs', b) := CovSpecs(pkg, bs, specs);
          (GenDecl(tok, specs'), b);
      var (rest, b2) := CovDecls(pkg, b1, ds[1..]);
      ([d] + rest, b2)
  }

  /** `ast.Walk(fileCover, file)`: the instrumented file and the blocks it records, numbered from 0. */
  function CoverFile(pkg: string, f: File): (r: (File, Blocks))
    requires WFDecls(f.decls)
    ensures |r.0.decls| == |f.decls| && r.0.imports == f.imports && r.0.comments == f.comments
  {
    var (ds, bs) := CovDecls(pkg, [], f.decls);
    (File(ds, f.imports, f.comments), bs)
  }
}

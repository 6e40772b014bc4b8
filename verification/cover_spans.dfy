/**
 The basic blocks the instrumenting walk of build/cover.go records over a
 file laid out in source order all end after they start. The overlap
 self-check of `addVariables` is exact only for such blocks, so over a
 laid-out file its silence means exactly that no two recorded blocks overlap.

 Each lemma below follows one function of the walk and states that the
 blocks it appends are non-empty; the blocks it was handed are kept as they
 are, so the facts compose along the walk.
 */
module CoverSpans {
  import opened Ast
  import opened Cover
  import opened CoverWalk
  import opened ExtentOrder
  import opened Boundary
  import opened CoverVars

  /** Every block appended after the first `|bs|` ends after it starts. */
  predicate NewNonEmpty(bs: Blocks, bs': Blocks) {
    forall k :: |bs| <= k < |bs'| ==> bs'[k].start < bs'[k].end
  }

  /** Every statement of a list lies in order inside its own span. */
  predicate AllLaid(ss: seq<Stmt>) {
    forall i :: 0 <= i < |ss| ==> LaidStmt(ss[i])
  }

  lemma Chain(b0: Blocks, b1: Blocks, b2: Blocks)
    requires b0 <= b1 <= b2 && NewNonEmpty(b0, b1) && NewNonEmpty(b1, b2)
    ensures NewNonEmpty(b0, b2)
  {
    forall k | |b0| <= k < |b2| ensures b2[k].start < b2[k].end {
      if k < |b1| {
        assert b2[k] == b2[..|b1|][k] == b1[k];
      }
    }
  }

  /* ---------------- laid-out statement lists ---------------- */

  /** The `k`-th statement of a laid-out list starts after `lo`, and the list from it on is laid out from its own start. */
  lemma {:induction false} InStmtsAt(ss: seq<Stmt>, lo: Pos, k: nat)
    requires InStmts(ss, lo) && k < |ss|
    ensures lo <= StmtPos(ss[k]) && LaidStmt(ss[k])
    ensures InStmts(ss[k..], StmtPos(ss[k])) && StmtsEnd(ss[k..], StmtPos(ss[k])) == StmtsEnd(ss, lo)
    decreases k
  {
    if k == 0 {
      assert ss[0..] == ss;
    } else {
      assert InStmt(ss[0], lo) && LaidStmt(ss[0]);
      assert StmtsEnd(ss, lo) == StmtsEnd(ss[1..], StmtEnd(ss[0]));
      InStmtsAt(ss[1..], StmtEnd(ss[0]), k - 1);
      assert ss[1..][k - 1] == ss[k];
      assert ss[1..][k - 1..] == ss[k..];
    }
  }

  lemma InStmtsLaid(ss: seq<Stmt>, lo: Pos)
    requires InStmts(ss, lo)
    ensures AllLaid(ss)
  {
    forall i | 0 <= i < |ss| ensures LaidStmt(ss[i]) {
      InStmtsAt(ss, lo, i);
    }
  }

  /** A list laid out from `lo` is laid out from any earlier bound, and ends no later. */
  lemma InStmtsLower(ss: seq<Stmt>, lo: Pos, lo': Pos)
    requires InStmts(ss, lo) && lo' <= lo
    ensures InStmts(ss, lo') && StmtsEnd(ss, lo') <= StmtsEnd(ss, lo)
  {
  }

  lemma {:induction false} StripLaid(pkg: string, ss: seq<Stmt>)
    requires AllLaid(ss)
    ensures AllLaid(Strip(pkg, ss))
  {
    if |ss| > 0 {
      StripLaid(pkg, ss[1..]);
      var rest := Strip(pkg, ss[1..]);
      var r := Strip(pkg, ss);
      forall i | 0 <= i < |r| ensures LaidStmt(r[i]) {
        if !IsCounter(pkg, ss[0]) && i > 0 {
          assert r[i] == rest[i - 1];
        }
      }
    }
  }

  lemma StripConsLaid(pkg: string, out: seq<Stmt>)
    requires |out| > 0 && AllLaid(Strip(pkg, out))
    ensures AllLaid(Strip(pkg, out[1..]))
    ensures !IsCounter(pkg, out[0]) ==> LaidStmt(out[0])
  {
    var rest := Strip(pkg, out[1..]);
    if !IsCounter(pkg, out[0]) {
      assert Strip(pkg, out) == [out[0]] + rest;
      assert Strip(pkg, out)[0] == out[0];
      forall i | 0 <= i < |rest| ensures LaidStmt(rest[i]) {
        assert rest[i] == Strip(pkg, out)[i + 1];
      }
    } else {
      assert Strip(pkg, out) == rest;
    }
  }

  /* ---------------- addCounters ---------------- */

  /**
   Each basic block of a laid-out list runs from where it starts to the
   boundary of its last statement, or to the end of the enclosing block: never
   backwards, and an empty span records nothing.
   */
  lemma {:induction false} ChunksNonEmpty(pkg: string, bs: Blocks, pos: Pos, blockEnd: Pos, list: seq<Stmt>, extend: bool)
    requires |list| > 0 && InStmts(list, pos) && StmtsEnd(list, pos) <= blockEnd
    ensures NewNonEmpty(bs, Chunks(pkg, bs, pos, blockEnd, list, extend).1)
    decreases |list|
  {
    var last := ChunkLen(list);
    var ext := extend && !EndsBasicSourceBlock(list[last - 1]);
    var end := if ext then blockEnd else StatementBoundary(list[last - 1]);
    var bs1 := Grow(bs, pos, end, last);
    InStmtsAt(list, pos, last - 1);
    StmtsAfter(list, pos);
    if !ext {
      StatementBoundaryWithin(list[last - 1]);
    }
    assert pos <= end;
    assert NewNonEmpty(bs, bs1);
    var r := Chunks(pkg, bs, pos, blockEnd, list, extend);
    if last < |list| {
      InStmtsAt(list, pos, last);
      var rest := Chunks(pkg, bs1, StmtPos(list[last]), blockEnd, list[last..], ext);
      ChunksNonEmpty(pkg, bs1, StmtPos(list[last]), blockEnd, list[last..], ext);
      assert r.1 == rest.1;
      assert bs1 <= rest.1 by {
        assert rest.1[..|bs1|] == bs1;
      }
      Chain(bs, bs1, rest.1);
    } else {
      assert r.1 == bs1;
    }
  }

  lemma AddCountersNonEmpty(pkg: string, bs: Blocks, pos: Pos, blockEnd: Pos, list: seq<Stmt>, extend: bool)
    requires InStmts(list, pos) && StmtsEnd(list, pos) <= blockEnd && (|list| == 0 ==> pos < blockEnd)
    ensures NewNonEmpty(bs, AddCounters(pkg, bs, pos, blockEnd, list, extend).1)
  {
    if |list| > 0 {
      ChunksNonEmpty(pkg, bs, pos, blockEnd, list, extend);
    }
  }

  /* ---------------- the walk ---------------- */

  lemma {:induction false} CovExprNonEmpty(pkg: string, bs: Blocks, e: Expr)
    requires WFExpr(e) && LaidExpr(e)
    ensures NewNonEmpty(bs, CovExpr(pkg, bs, e).1)
    decreases SizeExpr(e), 0, 0
  {
    match e
    case Ident(_, _) =>
    case IntLit(_, _) =>
    case Selector(x, _, _) =>
      CovExprNonEmpty(pkg, bs, x);
    case Index(x, _, i, _) =>
      var b1 := CovExpr(pkg, bs, x).1;
      CovExprNonEmpty(pkg, bs, x);
      CovExprNonEmpty(pkg, b1, i);
      Chain(bs, b1, CovExpr(pkg, b1, i).1);
    case AddrOf(_, x) =>
      CovExprNonEmpty(pkg, bs, x);
    case Call(c) =>
      CovCallNonEmpty(pkg, bs, c, ExprPos(e));
    case FuncLit(_, _, body) =>
      CovBlockNonEmpty(pkg, bs, body);
    case OtherExpr(p, _, cs) =>
      CovExprsNonEmpty(pkg, bs, cs, p);
  }

  lemma {:induction false} CovCallNonEmpty(pkg: string, bs: Blocks, c: CallExpr, lo: Pos)
    requires WFCall(c) && InCall(c, lo)
    ensures NewNonEmpty(bs, CovCall(pkg, bs, c).1)
    decreases SizeCall(c), 0, 0
  {
    var b1 := CovExpr(pkg, bs, c.fun).1;
    CovExprNonEmpty(pkg, bs, c.fun);
    CovExprsNonEmpty(pkg, b1, c.args, ExprEnd(c.fun));
    Chain(bs, b1, CovExprs(pkg, b1, c.args).1);
  }

  lemma {:induction false} CovExprsNonEmpty(pkg: string, bs: Blocks, es: seq<Expr>, lo: Pos)
    requires WFExprs(es) && InExprs(es, lo)
    ensures NewNonEmpty(bs, CovExprs(pkg, bs, es).1)
    decreases SizeExprs(es), 1, 0
  {
    if |es| > 0 {
      var b1 := CovExpr(pkg, bs, es[0]).1;
      CovExprNonEmpty(pkg, bs, es[0]);
      CovExprsNonEmpty(pkg, b1, es[1..], ExprEnd(es[0]));
      Chain(bs, b1, CovExprs(pkg, b1, es[1..]).1);
    }
  }

  lemma {:induction false} CovOptExprNonEmpty(pkg: string, bs: Blocks, e: Option<Expr>, lo: Pos)
    requires WFOptExpr(e) && InOptExpr(e, lo)
    ensures NewNonEmpty(bs, CovOptExpr(pkg, bs, e).1)
    decreases SizeOptExpr(e), 1, 0
  {
    if e.Some? {
      CovExprNonEmpty(pkg, bs, e.value);
    }
  }

  /**
   A laid-out block: a clause list's bodies each span their clause, which
   ends after the colon; any other list spans the braces, the right one at or
   after the left.
   */
  lemma {:induction false} CovBlockNonEmpty(pkg: string, bs: Blocks, b: Block)
    requires WFBlock(b) && InBlock(b, b.lbrace)
    ensures NewNonEmpty(bs, CovBlock(pkg, bs, b).1)
    decreases SizeBlock(b), 0, 1
  {
    if |b.list| > 0 && IsClause(b.list[0]) {
      ClauseBlockNonEmpty(pkg, bs, b);
    } else {
      ListBlockNonEmpty(pkg, bs, b);
    }
  }

  lemma {:induction false} ClauseBlockNonEmpty(pkg: string, bs: Blocks, b: Block)
    requires WFBlock(b) && InBlock(b, b.lbrace) && |b.list| > 0 && IsClause(b.list[0])
    ensures NewNonEmpty(bs, CovBlock(pkg, bs, b).1)
    decreases SizeBlock(b), 0, 0
  {
    InStmtsLaid(b.list, b.lbrace);
    var cc := ClauseCounters(pkg, bs, b.list);
    ClauseCountersNonEmpty(pkg, bs, b.list);
    WalkClausesNonEmpty(pkg, cc.1, b.list, cc.0);
    Chain(bs, cc.1, WalkClauses(pkg, cc.1, b.list, cc.0).1);
  }

  lemma {:induction false} ListBlockNonEmpty(pkg: string, bs: Blocks, b: Block)
    requires WFBlock(b) && InBlock(b, b.lbrace) && !(|b.list| > 0 && IsClause(b.list[0]))
    ensures NewNonEmpty(bs, CovBlock(pkg, bs, b).1)
    decreases SizeBlock(b), 0, 0
  {
    InStmtsLaid(b.list, b.lbrace);
    var ac := AddCounters(pkg, bs, b.lbrace, b.rbrace + 1, b.list, true);
    var out, b1 := ac.0, ac.1;
    AddCountersSpec(pkg, bs, b.lbrace, b.rbrace + 1, b.list, true);
    AddCountersNonEmpty(pkg, bs, b.lbrace, b.rbrace + 1, b.list, true);
    StripSize(pkg, b.list);
    StripWF(pkg, b.list);
    StripLaid(pkg, b.list);
    WalkOutNonEmpty(pkg, b1, out);
    assert bs <= b1 by {
      assert b1[..|bs|] == bs;
    }
    assert CovBlock(pkg, bs, b).1 == WalkOut(pkg, b1, out).1;
    Chain(bs, b1, WalkOut(pkg, b1, out).1);
  }

  /** A clause's body, empty or not, spans from the clause's start to its end, which lies past the colon. */
  lemma ClauseSpan(c: Stmt)
    requires IsClause(c) && LaidStmt(c)
    ensures InStmts(c.clauseBody, StmtPos(c)) && StmtsEnd(c.clauseBody, StmtPos(c)) <= StmtEnd(c)
    ensures |c.clauseBody| == 0 ==> StmtPos(c) < StmtEnd(c)
  {
    if c.CaseClause? {
      ExprsAfter(c.exprs, StmtPos(c));
    } else if c.comm.Some? {
      assert InStmt(c.comm.value, StmtPos(c)) && LaidStmt(c.comm.value);
    }
    assert StmtPos(c) <= c.colon;
    InStmtsLower(c.clauseBody, c.colon + 1, StmtPos(c));
  }

  lemma {:induction false} ClauseCountersNonEmpty(pkg: string, bs: Blocks, cs: seq<Stmt>)
    requires forall i :: 0 <= i < |cs| ==> cs[i].CaseClause? || cs[i].CommClause?
    requires AllLaid(cs)
    ensures NewNonEmpty(bs, ClauseCounters(pkg, bs, cs).1)
    decreases |cs|
  {
    if |cs| > 0 {
      var c := cs[0];
      var b1 := AddCounters(pkg, bs, StmtPos(c), StmtEnd(c), c.clauseBody, false).1;
      ClauseSpan(c);
      AddCountersNonEmpty(pkg, bs, StmtPos(c), StmtEnd(c), c.clauseBody, false);
      assert AllLaid(cs[1..]) by {
        forall i | 0 <= i < |cs[1..]| ensures LaidStmt(cs[1..][i]) {
          assert cs[1..][i] == cs[i + 1];
        }
      }
      ClauseCountersNonEmpty(pkg, b1, cs[1..]);
      assert bs <= b1 by {
        assert b1[..|bs|] == bs;
      }
      Chain(bs, b1, ClauseCounters(pkg, b1, cs[1..]).1);
    }
  }

  lemma {:induction false} WalkClausesNonEmpty(pkg: string, bs: Blocks, cs: seq<Stmt>, bodies: seq<seq<Stmt>>)
    requires |bodies| == |cs|
    requires forall i :: 0 <= i < |cs| ==> (cs[i].CaseClause? || cs[i].CommClause?) && WFStmt(cs[i])
    requires forall i :: 0 <= i < |cs| ==> Strip(pkg, bodies[i]) == Strip(pkg, cs[i].clauseBody)
    requires AllLaid(cs)
    ensures NewNonEmpty(bs, WalkClauses(pkg, bs, cs, bodies).1)
    decreases SizeList(cs), 1, |cs|
  {
    if |cs| > 0 {
      var b1 := WalkClause(pkg, bs, cs[0], bodies[0]).1;
      WalkClauseNonEmpty(pkg, bs, cs[0], bodies[0]);
      assert AllLaid(cs[1..]) by {
        forall i | 0 <= i < |cs[1..]| ensures LaidStmt(cs[1..][i]) {
          assert cs[1..][i] == cs[i + 1];
        }
      }
      WalkClausesNonEmpty(pkg, b1, cs[1..], bodies[1..]);
      Chain(bs, b1, WalkClauses(pkg, b1, cs[1..], bodies[1..]).1);
    }
  }

  lemma {:induction false} WalkClauseNonEmpty(pkg: string, bs: Blocks, c: Stmt, body: seq<Stmt>)
    requires IsClause(c) && WFStmt(c) && Strip(pkg, body) == Strip(pkg, c.clauseBody) && LaidStmt(c)
    ensures NewNonEmpty(bs, WalkClause(pkg, bs, c, body).1)
    decreases Size(c), 1, 0
  {
    StripSize(pkg, c.clauseBody);
    StripWF(pkg, c.clauseBody);
    InStmtsLaid(c.clauseBody, c.colon + 1);
    StripLaid(pkg, c.clauseBody);
    match c
    case CaseClause(_, p, es, _, _) =>
      var b1 := CovExprs(pkg, bs, es).1;
      CovExprsNonEmpty(pkg, bs, es, p);
      WalkOutNonEmpty(pkg, b1, body);
      Chain(bs, b1, WalkOut(pkg, b1, body).1);
    case CommClause(_, p, comm, _, _) =>
      var b1 := CovOpt(pkg, bs, comm).1;
      CovOptNonEmpty(pkg, bs, comm, p);
      WalkOutNonEmpty(pkg, b1, body);
      Chain(bs, b1, WalkOut(pkg, b1, body).1);
  }

  lemma {:induction false} WalkOutNonEmpty(pkg: string, bs: Blocks, out: seq<Stmt>)
    requires WFStmts(Strip(pkg, out)) && AllLaid(Strip(pkg, out))
    ensures NewNonEmpty(bs, WalkOut(pkg, bs, out).1)
    decreases SizeList(Strip(pkg, out)), 1, |out|
  {
    if |out| > 0 {
      StripCons(pkg, out);
      StripConsLaid(pkg, out);
      if IsCounter(pkg, out[0]) {
        WalkOutNonEmpty(pkg, bs, out[1..]);
      } else {
        var b1 := CovStmt(pkg, bs, out[0]).1;
        CovStmtNonEmpty(pkg, bs, out[0]);
        WalkOutNonEmpty(pkg, b1, out[1..]);
        Chain(bs, b1, WalkOut(pkg, b1, out[1..]).1);
      }
    }
  }

  lemma {:induction false} CovOptNonEmpty(pkg: string, bs: Blocks, s: Option<Stmt>, lo: Pos)
    requires WFOpt(s) && InOpt(s, lo)
    ensures NewNonEmpty(bs, CovOpt(pkg, bs, s).1)
    decreases SizeOpt(s), 1, 0
  {
    if s.Some? {
      CovStmtNonEmpty(pkg, bs, s.value);
    }
  }

  lemma {:induction false} CovStmtNonEmpty(pkg: string, bs: Blocks, s: Stmt)
    requires WFStmt(s) && LaidStmt(s)
    ensures NewNonEmpty(bs, CovStmt(pkg, bs, s).1)
    decreases Size(s), 0, 1
  {
    match s
    case BlockStmt(b) =>
      CovBlockNonEmpty(pkg, bs, b);
    case If(_, _, _, _, _, _) =>
      CovIfNonEmpty(pkg, bs, s);
    case For(_, _, _, _, _, _) =>
      CovLoopNonEmpty(pkg, bs, s);
    case Range(_, _, _, _, _, _) =>
      CovLoopNonEmpty(pkg, bs, s);
    case Switch(_, _, _, _, body) =>
      if |body.list| > 0 {
        CovSwitchNonEmpty(pkg, bs, s);
      }
    case TypeSwitch(_, _, _, _, body) =>
      if |body.list| > 0 {
        CovSwitchNonEmpty(pkg, bs, s);
      }
    case Select(_, _, body) =>
      if |body.list| > 0 {
        CovSwitchNonEmpty(pkg, bs, s);
      }
    case CaseClause(_, _, _, _, _) =>
      CovClauseNonEmpty(pkg, bs, s);
    case CommClause(_, _, _, _, _) =>
      CovClauseNonEmpty(pkg, bs, s);
    case Labeled(_, _, _, inner) =>
      CovStmtNonEmpty(pkg, bs, inner);
    case Branch(_, _, _) =>
    case ExprStmt(_, x) =>
      CovExprNonEmpty(pkg, bs, x);
    case Go(_, p, c) =>
      CovCallNonEmpty(pkg, bs, c, p);
    case Assign(_, lhs, _, rhs) =>
      var b1 := CovExprs(pkg, bs, lhs).1;
      CovExprsNonEmpty(pkg, bs, lhs, StmtPos(s));
      CovExprsNonEmpty(pkg, b1, rhs, ExprsEnd(lhs, StmtPos(s)));
      Chain(bs, b1, CovExprs(pkg, b1, rhs).1);
    case OtherStmt(_, p, _, es) =>
      CovExprsNonEmpty(pkg, bs, es, p);
  }

  /**
   The block an else is walked as is laid out too: a wrapped `else if` runs
   from the end of the if-body to the end of the inner if, and a moved else
   block starts earlier than its own brace and keeps its statements.
   */
  lemma ElseBlockLaid(body: Block, els: Stmt)
    requires (els.If? || els.BlockStmt?) && InStmt(els, BlockEnd(body))
    ensures InBlock(ElseBlock(body, els), BlockEnd(body))
  {
    assert LaidStmt(els);
    var eb := ElseBlock(body, els);
    if els.BlockStmt? {
      assert InBlock(els.block, els.block.lbrace);
      InStmtsLower(els.block.list, els.block.lbrace, BlockEnd(body));
      assert eb.list == els.block.list;
    } else {
      assert eb.list == [els] && [els][1..] == [];
      assert InStmts(eb.list, eb.lbrace);
      assert StmtsEnd(eb.list, eb.lbrace) == StmtEnd(els);
    }
  }

  lemma {:induction false} CovIfNonEmpty(pkg: string, bs: Blocks, s: Stmt)
    requires s.If? && WFStmt(s) && LaidStmt(s)
    ensures NewNonEmpty(bs, CovIf(pkg, bs, s).1)
    decreases Size(s), 0, 0
  {
    var b1 := CovBlock(pkg, bs, s.body).1;
    CovBlockNonEmpty(pkg, bs, s.body);
    if s.els.Some? {
      assert WFOpt(s.els);
      assert SizeOpt(s.els) == Size(s.els.value);
      ElseBlockFacts(s.body, s.els.value);
      ElseBlockLaid(s.body, s.els.value);
      var eb := ElseBlock(s.body, s.els.value);
      CovBlockNonEmpty(pkg, b1, eb);
      assert CovIf(pkg, bs, s).1 == CovBlock(pkg, b1, eb).1;
      Chain(bs, b1, CovBlock(pkg, b1, eb).1);
    }
  }

  lemma {:induction false} CovLoopNonEmpty(pkg: string, bs: Blocks, s: Stmt)
    requires (s.For? || s.Range?) && WFStmt(s) && LaidStmt(s)
    ensures NewNonEmpty(bs, CovLoop(pkg, bs, s).1)
    decreases Size(s), 0, 0
  {
    match s
    case For(_, p, init, cond, post, body) =>
      var b1 := CovOpt(pkg, bs, init).1;
      var b2 := CovOptExpr(pkg, b1, cond).1;
      var b3 := CovOpt(pkg, b2, post).1;
      CovOptNonEmpty(pkg, bs, init, p);
      CovOptExprNonEmpty(pkg, b1, cond, OptEnd(init, p));
      CovOptNonEmpty(pkg, b2, post, OptExprEnd(cond, OptEnd(init, p)));
      CovBlockNonEmpty(pkg, b3, body);
      Chain(bs, b1, b2);
      Chain(bs, b2, b3);
      Chain(bs, b3, CovBlock(pkg, b3, body).1);
    case Range(_, p, k, v, x, body) =>
      var b1 := CovOptExpr(pkg, bs, k).1;
      var b2 := CovOptExpr(pkg, b1, v).1;
      var b3 := CovExpr(pkg, b2, x).1;
      CovOptExprNonEmpty(pkg, bs, k, p);
      CovOptExprNonEmpty(pkg, b1, v, OptExprEnd(k, p));
      CovExprNonEmpty(pkg, b2, x);
      CovBlockNonEmpty(pkg, b3, body);
      Chain(bs, b1, b2);
      Chain(bs, b2, b3);
      Chain(bs, b3, CovBlock(pkg, b3, body).1);
  }

  lemma {:induction false} CovSwitchNonEmpty(pkg: string, bs: Blocks, s: Stmt)
    requires (s.Switch? || s.TypeSwitch? || s.Select?) && WFStmt(s) && LaidStmt(s)
    ensures NewNonEmpty(bs, CovSwitch(pkg, bs, s).1)
    decreases Size(s), 0, 0
  {
    match s
    case Switch(_, p, init, tag, body) =>
      var b1 := CovOpt(pkg, bs, init).1;
      var b2 := CovOptExpr(pkg, b1, tag).1;
      CovOptNonEmpty(pkg, bs, init, p);
      CovOptExprNonEmpty(pkg, b1, tag, OptEnd(init, p));
      CovBlockNonEmpty(pkg, b2, body);
      Chain(bs, b1, b2);
      Chain(bs, b2, CovBlock(pkg, b2, body).1);
    case TypeSwitch(_, p, init, a, body) =>
      var b1 := CovOpt(pkg, bs, init).1;
      var b2 := CovStmt(pkg, b1, a).1;
      CovOptNonEmpty(pkg, bs, init, p);
      CovStmtNonEmpty(pkg, b1, a);
      CovBlockNonEmpty(pkg, b2, body);
      Chain(bs, b1, b2);
      Chain(bs, b2, CovBlock(pkg, b2, body).1);
    case Select(_, _, body) =>
      CovBlockNonEmpty(pkg, bs, body);
  }

  lemma {:induction false} CovClauseNonEmpty(pkg: string, bs: Blocks, s: Stmt)
    requires IsClause(s) && WFStmt(s) && LaidStmt(s)
    ensures NewNonEmpty(bs, CovClause(pkg, bs, s).1)
    decreases Size(s), 0, 0
  {
    StripSize(pkg, s.clauseBody);
    StripWF(pkg, s.clauseBody);
    InStmtsLaid(s.clauseBody, s.colon + 1);
    StripLaid(pkg, s.clauseBody);
    match s
    case CaseClause(_, p, es, _, body) =>
      var b1 := CovExprs(pkg, bs, es).1;
      CovExprsNonEmpty(pkg, bs, es, p);
      WalkOutNonEmpty(pkg, b1, body);
      Chain(bs, b1, WalkOut(pkg, b1, body).1);
    case CommClause(_, p, comm, _, body) =>
      var b1 := CovOpt(pkg, bs, comm).1;
      CovOptNonEmpty(pkg, bs, comm, p);
      WalkOutNonEmpty(pkg, b1, body);
      Chain(bs, b1, WalkOut(pkg, b1, body).1);
  }

  /* ---------------- a whole file ---------------- */

  lemma {:induction false} CovSpecsNonEmpty(pkg: string, bs: Blocks, specs: seq<Spec>, lo: Pos)
    requires WFSpecs(specs) && InSpecs(specs, lo)
    ensures NewNonEmpty(bs, CovSpecs(pkg, bs, specs).1)
    decreases |specs|
  {
    if |specs| > 0 {
      var b1 := if specs[0].ValueSpec? then CovExprs(pkg, bs, specs[0].values).1 else bs;
      if specs[0].ValueSpec? {
        CovExprsNonEmpty(pkg, bs, specs[0].values, lo);
      }
      CovSpecsNonEmpty(pkg, b1, specs[1..], SpecEnd(specs[0], lo));
      Chain(bs, b1, CovSpecs(pkg, b1, specs[1..]).1);
    }
  }

  lemma {:induction false} CovDeclsNonEmpty(pkg: string, bs: Blocks, ds: seq<Decl>, lo: Pos)
    requires WFDecls(ds) && InDecls(ds, lo)
    ensures NewNonEmpty(bs, CovDecls(pkg, bs, ds).1)
    decreases |ds|
  {
    if |ds| > 0 {
      var b1 :=
        match ds[0]
        case FuncDecl(_, _, _, _, body) => if body.None? then bs else CovBlock(pkg, bs, body.value).1
        case GenDecl(_, specs) => CovSpecs(pkg, bs, specs).1;
      match ds[0] {
        case FuncDecl(_, _, _, _, body) =>
          if body.Some? {
            CovBlockNonEmpty(pkg, bs, body.value);
          }
        case GenDecl(_, specs) =>
          CovSpecsNonEmpty(pkg, bs, specs, lo);
      }
      CovDeclsNonEmpty(pkg, b1, ds[1..], DeclNext(ds[0], lo));
      Chain(bs, b1, CovDecls(pkg, b1, ds[1..]).1);
    }
  }

  /** Every basic block recorded over a laid-out file ends after it starts. */
  lemma CoverFileNonEmpty(pkg: string, f: File)
    requires WFDecls(f.decls) && LaidOut(f)
    ensures NonEmptyBlocks(CoverFile(pkg, f).1)
  {
    CovDeclsNonEmpty(pkg, [], f.decls, NoPos);
  }

  /**
   Over a laid-out file, the self-check stays silent exactly when no two
   recorded blocks overlap, whatever start-sorted order it is handed.
   */
  lemma CoverFileSelfCheck(pkg: string, f: File, perm: seq<nat>)
    requires WFDecls(f.decls) && LaidOut(f) && SortedPerm(CoverFile(pkg, f).1, perm)
    ensures Reports(CoverFile(pkg, f).1, perm, 1) == [] <==> Disjoint(CoverFile(pkg, f).1)
  {
    CoverFileNonEmpty(pkg, f);
    SelfCheckSilentIff(CoverFile(pkg, f).1, perm);
  }
}

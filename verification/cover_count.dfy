/**
 What the instrumenting walk of build/cover.go guarantees about its counters:
 the instrumented tree holds exactly the counters the input held plus one
 counter for every block it records, the `k`-th recorded block being counted
 by the counter that increments slot `k`. A file without counters of its own
 therefore comes out with exactly one counter per recorded block.
 */
module CoverCount {
  import opened Ast
  import opened Cover
  import opened CoverWalk

  /* ---------------- the counters anywhere in a tree, as a bag of slots ---------------- */

  function CtrExpr(pkg: string, slot: nat, e: Expr): nat
    decreases e, 1
  {
    match e
    case Ident(_, _) => 0
    case IntLit(_, _) => 0
    case Selector(x, _, _) => CtrExpr(pkg, slot, x)
    case Index(x, _, i, _) => CtrExpr(pkg, slot, x) + CtrExpr(pkg, slot, i)
    case AddrOf(_, x) => CtrExpr(pkg, slot, x)
    case Call(c) => CtrCall(pkg, slot, c)
    case FuncLit(_, _, b) => CtrBlock(pkg, slot, b)
    case OtherExpr(_, _, cs) => CtrExprs(pkg, slot, cs)
  }

  function CtrCall(pkg: string, slot: nat, c: CallExpr): nat
    decreases c, 0
  {
    CtrExpr(pkg, slot, c.fun) + CtrExprs(pkg, slot, c.args)
  }

  function CtrExprs(pkg: string, slot: nat, es: seq<Expr>): nat
    decreases es, 1
  {
    if |es| == 0 then 0 else CtrExpr(pkg, slot, es[0]) + CtrExprs(pkg, slot, es[1..])
  }

  function CtrOptExpr(pkg: string, slot: nat, e: Option<Expr>): nat
    decreases e, 1
  {
    if e.Some? then CtrExpr(pkg, slot, e.value) else 0
  }

  function CtrBlock(pkg: string, slot: nat, b: Block): nat
    decreases b, 1
  {
    CtrList(pkg, slot, b.list)
  }

  function CtrList(pkg: string, slot: nat, ss: seq<Stmt>): nat
    decreases ss, 1
  {
    if |ss| == 0 then 0 else CtrStmt(pkg, slot, ss[0]) + CtrList(pkg, slot, ss[1..])
  }

  function CtrOpt(pkg: string, slot: nat, s: Option<Stmt>): nat
    decreases s, 1
  {
    if s.Some? then CtrStmt(pkg, slot, s.value) else 0
  }

  function CtrStmt(pkg: string, slot: nat, s: Stmt): nat
    decreases s, 1
  {
    match s
    case BlockStmt(b) => CtrBlock(pkg, slot, b)
    case If(_, _, init, cond, body, els) =>
      CtrOpt(pkg, slot, init) + CtrExpr(pkg, slot, cond) + CtrBlock(pkg, slot, body) + CtrOpt(pkg, slot, els)
    case For(_, _, init, cond, post, body) =>
      CtrOpt(pkg, slot, init) + CtrOptExpr(pkg, slot, cond) + CtrOpt(pkg, slot, post) + CtrBlock(pkg, slot, body)
    case Range(_, _, k, v, x, body) =>
      CtrOptExpr(pkg, slot, k) + CtrOptExpr(pkg, slot, v) + CtrExpr(pkg, slot, x) + CtrBlock(pkg, slot, body)
    case Switch(_, _, init, tag, body) => CtrOpt(pkg, slot, init) + CtrOptExpr(pkg, slot, tag) + CtrBlock(pkg, slot, body)
    case TypeSwitch(_, _, init, a, body) => CtrOpt(pkg, slot, init) + CtrStmt(pkg, slot, a) + CtrBlock(pkg, slot, body)
    case Select(_, _, body) => CtrBlock(pkg, slot, body)
    case CaseClause(_, _, es, _, body) => CtrExprs(pkg, slot, es) + CtrList(pkg, slot, body)
    case CommClause(_, _, comm, _, body) => CtrOpt(pkg, slot, comm) + CtrList(pkg, slot, body)
    case Labeled(_, _, _, inner) => CtrStmt(pkg, slot, inner)
    case Branch(_, _, _) => 0
    case ExprStmt(_, x) =>
      if IsCounter(pkg, s) then (if CounterIndexOf(pkg, s).value == slot then 1 else 0) else CtrExpr(pkg, slot, x)
    case Go(_, _, c) => CtrCall(pkg, slot, c)
    case Assign(_, lhs, _, rhs) => CtrExprs(pkg, slot, lhs) + CtrExprs(pkg, slot, rhs)
    case OtherStmt(_, _, _, es) => CtrExprs(pkg, slot, es)
  }

  function CtrSpecs(pkg: string, slot: nat, specs: seq<Spec>): nat {
    if |specs| == 0 then 0
    else (if specs[0].ValueSpec? then CtrExprs(pkg, slot, specs[0].values) else 0) + CtrSpecs(pkg, slot, specs[1..])
  }

  function CtrDecls(pkg: string, slot: nat, ds: seq<Decl>): nat {
    if |ds| == 0 then 0
    else
      (match ds[0]
       case FuncDecl(_, _, _, _, body) => if body.Some? then CtrBlock(pkg, slot, body.value) else 0
       case GenDecl(_, specs) => CtrSpecs(pkg, slot, specs))
      + CtrDecls(pkg, slot, ds[1..])
  }

  /** `after` is `before`, plus one if `slot` belongs to a block recorded between `bs` and `bs'`. */
  predicate Adds(slot: nat, before: nat, after: nat, bs: Blocks, bs': Blocks) {
    |bs| <= |bs'| && after == before + (if |bs| <= slot < |bs'| then 1 else 0)
  }

  /** How many times `slot` occurs in a list of counter indices. */
  function Occ(slot: nat, xs: seq<nat>): nat {
    if |xs| == 0 then 0 else (if xs[0] == slot then 1 else 0) + Occ(slot, xs[1..])
  }

  lemma {:induction false} OccAppend(slot: nat, a: seq<nat>, b: seq<nat>)
    ensures Occ(slot, a + b) == Occ(slot, a) + Occ(slot, b)
  {
    if |a| == 0 {
      assert a + b == b;
    } else {
      assert (a + b)[1..] == a[1..] + b;
      OccAppend(slot, a[1..], b);
    }
  }

  /* ---------------- what addCounters adds ---------------- */

  lemma {:induction false} CtrListAppend(pkg: string, slot: nat, a: seq<Stmt>, b: seq<Stmt>)
    ensures CtrList(pkg, slot, a + b) == CtrList(pkg, slot, a) + CtrList(pkg, slot, b)
  {
    if |a| == 0 {
      assert a + b == b;
    } else {
      assert (a + b)[1..] == a[1..] + b;
      CtrListAppend(pkg, slot, a[1..], b);
    }
  }

  /** The counters of a list are those of its counter statements plus those nested in the rest. */
  lemma {:induction false} CtrSplit(pkg: string, slot: nat, ss: seq<Stmt>)
    ensures CtrList(pkg, slot, ss) == CtrList(pkg, slot, Strip(pkg, ss)) + Occ(slot, CounterIndices(pkg, ss))
  {
    if |ss| > 0 {
      CtrSplit(pkg, slot, ss[1..]);
      var rest := Strip(pkg, ss[1..]);
      if IsCounter(pkg, ss[0]) {
        assert Strip(pkg, ss) == rest;
        assert CounterIndices(pkg, ss) == [CounterIndexOf(pkg, ss[0]).value] + CounterIndices(pkg, ss[1..]);
        OccAppend(slot, [CounterIndexOf(pkg, ss[0]).value], CounterIndices(pkg, ss[1..]));
      } else {
        assert Strip(pkg, ss) == [ss[0]] + rest;
        assert CounterIndices(pkg, ss) == CounterIndices(pkg, ss[1..]);
        assert [ss[0]][1..] == [];
        assert CtrList(pkg, slot, [ss[0]]) == CtrStmt(pkg, slot, ss[0]) + CtrList(pkg, slot, []);
        CtrListAppend(pkg, slot, [ss[0]], rest);
      }
    }
  }

  lemma {:induction false} ChunksCounters(pkg: string, slot: nat, bs: seq<BasicBlock>, pos: Pos, blockEnd: Pos, list: seq<Stmt>, extend: bool)
    requires |list| > 0
    ensures var r := Chunks(pkg, bs, pos, blockEnd, list, extend);
      Occ(slot, CounterIndices(pkg, r.0)) == Occ(slot, CounterIndices(pkg, list)) + (if |bs| <= slot < |r.1| then 1 else 0)
    decreases |list|
  {
    var last := ChunkLen(list);
    var ext := extend && !EndsBasicSourceBlock(list[last - 1]);
    var end := if ext then blockEnd else StatementBoundary(list[last - 1]);
    var head := if pos != end then [CounterStmt(pkg, |bs|)] else [];
    var bs1 := if pos != end then bs + [BasicBlock(pos, end, last)] else bs;
    HeadFacts(pkg, |bs|);
    assert Occ(slot, CounterIndices(pkg, head)) == if |bs| <= slot < |bs1| then 1 else 0;
    if last == |list| {
      CounterIndicesAppend(pkg, head, list);
      OccAppend(slot, CounterIndices(pkg, head), CounterIndices(pkg, list));
    } else {
      var rest := Chunks(pkg, bs1, StmtPos(list[last]), blockEnd, list[last..], ext);
      ChunksCounters(pkg, slot, bs1, StmtPos(list[last]), blockEnd, list[last..], ext);
      SplitAt(list, last);
      CounterIndicesAppend(pkg, list[..last], list[last..]);
      OccAppend(slot, CounterIndices(pkg, list[..last]), CounterIndices(pkg, list[last..]));
      CounterIndicesAppend(pkg, head, list[..last]);
      OccAppend(slot, CounterIndices(pkg, head), CounterIndices(pkg, list[..last]));
      CounterIndicesAppend(pkg, head + list[..last], rest.0);
      OccAppend(slot, CounterIndices(pkg, head + list[..last]), CounterIndices(pkg, rest.0));
    }
  }

  /** `addCounters` adds one counter per block it records, each incrementing that block's slot. */
  lemma AddCountersCount(pkg: string, slot: nat, bs: seq<BasicBlock>, pos: Pos, blockEnd: Pos, list: seq<Stmt>, extend: bool)
    ensures var r := AddCounters(pkg, bs, pos, blockEnd, list, extend);
      Adds(slot, CtrList(pkg, slot, list), CtrList(pkg, slot, r.0), bs, r.1)
  {
    var r := AddCounters(pkg, bs, pos, blockEnd, list, extend);
    if |list| == 0 {
      CounterRoundTrip(pkg, |bs|);
    } else {
      AddCountersSpec(pkg, bs, pos, blockEnd, list, extend);
      ChunksStrip(pkg, bs, pos, blockEnd, list, extend);
      ChunksCounters(pkg, slot, bs, pos, blockEnd, list, extend);
      CtrSplit(pkg, slot, list);
      CtrSplit(pkg, slot, r.0);
    }
  }

  /* ---------------- a counter is left as it is ---------------- */

  predicate FreeExpr(e: Expr)
    decreases e, 1
  {
    match e
    case Ident(_, _) => true
    case IntLit(_, _) => true
    case Selector(x, _, _) => FreeExpr(x)
    case Index(x, _, i, _) => FreeExpr(x) && FreeExpr(i)
    case AddrOf(_, x) => FreeExpr(x)
    case Call(c) => FreeCall(c)
    case FuncLit(_, _, _) => false
    case OtherExpr(_, _, cs) => FreeExprs(cs)
  }

  predicate FreeCall(c: CallExpr)
    decreases c, 0
  {
    FreeExpr(c.fun) && FreeExprs(c.args)
  }

  predicate FreeExprs(es: seq<Expr>)
    decreases es, 1
  {
    |es| == 0 || (FreeExpr(es[0]) && FreeExprs(es[1..]))
  }

  /** An expression without function literals holds no block, so the walk leaves it alone; one with them keeps them. */
  lemma {:induction false} ExprShape(pkg: string, bs: Blocks, e: Expr)
    requires WFExpr(e)
    ensures var r := CovExpr(pkg, bs, e); (FreeExpr(e) ==> r == (e, bs)) && (FreeExpr(r.0) ==> FreeExpr(e))
    decreases SizeExpr(e), 0
  {
    match e
    case Ident(_, _) =>
    case IntLit(_, _) =>
    case Selector(x, _, _) => ExprShape(pkg, bs, x);
    case Index(x, _, i, _) =>
      ExprShape(pkg, bs, x);
      ExprShape(pkg, CovExpr(pkg, bs, x).1, i);
    case AddrOf(_, x) => ExprShape(pkg, bs, x);
    case Call(c) => CallShape(pkg, bs, c);
    case FuncLit(_, _, _) =>
    case OtherExpr(_, _, cs) => ExprsShape(pkg, bs, cs);
  }

  lemma {:induction false} CallShape(pkg: string, bs: Blocks, c: CallExpr)
    requires WFCall(c)
    ensures var r := CovCall(pkg, bs, c); (FreeCall(c) ==> r == (c, bs)) && (FreeCall(r.0) ==> FreeCall(c))
    decreases SizeCall(c), 0
  {
    ExprShape(pkg, bs, c.fun);
    ExprsShape(pkg, CovExpr(pkg, bs, c.fun).1, c.args);
  }

  lemma {:induction false} ExprsShape(pkg: string, bs: Blocks, es: seq<Expr>)
    requires WFExprs(es)
    ensures var r := CovExprs(pkg, bs, es); (FreeExprs(es) ==> r == (es, bs)) && (FreeExprs(r.0) ==> FreeExprs(es))
    decreases SizeExprs(es), 1
  {
    if |es| > 0 {
      var (e', b1) := CovExpr(pkg, bs, es[0]);
      var (rest, b2) := CovExprs(pkg, b1, es[1..]);
      ExprShape(pkg, bs, es[0]);
      ExprsShape(pkg, b1, es[1..]);
      assert ([e'] + rest)[0] == e' && ([e'] + rest)[1..] == rest;
      if FreeExprs(es) {
        assert [es[0]] + es[1..] == es;
      }
    }
  }

  lemma CounterFree(pkg: string, s: Stmt)
    requires IsCounter(pkg, s)
    ensures s.ExprStmt? && FreeExpr(s.x) && WFExpr(s.x)
  {
    var k := CounterIndexOf(pkg, s).value;
    assert s == CounterStmt(pkg, k);
    var one := IntLit(NoPos, 1);
    var sel := Selector(Ident(NoPos, CoverVar), NoPos, "Count");
    var row := Index(sel, NoPos, Ident(NoPos, TraceIdName), NoPos);
    assert FreeExpr(sel) && FreeExpr(row) && FreeExpr(CounterRef(k));
    assert FreeExpr(one) && FreeExprs([]);
    assert [one][1..] == [];
    assert FreeExprs([one]);
    var args := [AddrOf(NoPos, CounterRef(k)), one];
    assert args[1..] == [one];
    assert FreeExprs(args);
    assert FreeCall(s.x.call);
    assert WFExpr(sel) && WFExpr(row) && WFExpr(CounterRef(k));
    assert WFExpr(args[0]) && WFExpr(args[1]);
    assert WFCall(s.x.call);
  }

  /** Walking an inserted counter changes nothing, which is why the walk may step over them. */
  lemma CounterInert(pkg: string, bs: Blocks, k: nat)
    ensures WFStmt(CounterStmt(pkg, k)) && CovStmt(pkg, bs, CounterStmt(pkg, k)) == (CounterStmt(pkg, k), bs)
  {
    CounterRoundTrip(pkg, k);
    CounterFree(pkg, CounterStmt(pkg, k));
    ExprShape(pkg, bs, CounterStmt(pkg, k).x);
  }

  /* ---------------- the walk adds one counter per recorded block ---------------- */

  lemma {:induction false} CountExpr(pkg: string, slot: nat, bs: Blocks, e: Expr)
    requires WFExpr(e)
    ensures var r := CovExpr(pkg, bs, e); Adds(slot, CtrExpr(pkg, slot, e), CtrExpr(pkg, slot, r.0), bs, r.1)
    decreases SizeExpr(e), 0, 0
  {
    match e
    case Ident(_, _) => 
    case IntLit(_, _) => 
    case Selector(x, _, _) => CountExpr(pkg, slot, bs, x);
    case Index(x, _, i, _) =>
      var (x', b1) := CovExpr(pkg, bs, x);
      var (i', b2) := CovExpr(pkg, b1, i);
      CountExpr(pkg, slot, bs, x);
      CountExpr(pkg, slot, b1, i);
    case AddrOf(_, x) => CountExpr(pkg, slot, bs, x);
    case Call(c) => CountCall(pkg, slot, bs, c);
    case FuncLit(_, _, b) => CountBlock(pkg, slot, bs, b);
    case OtherExpr(_, _, cs) => CountExprs(pkg, slot, bs, cs);
  }

  lemma {:induction false} CountCall(pkg: string, slot: nat, bs: Blocks, c: CallExpr)
    requires WFCall(c)
    ensures var r := CovCall(pkg, bs, c); Adds(slot, CtrCall(pkg, slot, c), CtrCall(pkg, slot, r.0), bs, r.1)
    decreases SizeCall(c), 0, 0
  {
    var (fun', b1) := CovExpr(pkg, bs, c.fun);
    var (args', b2) := CovExprs(pkg, b1, c.args);
    CountExpr(pkg, slot, bs, c.fun);
    CountExprs(pkg, slot, b1, c.args);
  }

  lemma {:induction false} CountExprs(pkg: string, slot: nat, bs: Blocks, es: seq<Expr>)
    requires WFExprs(es)
    ensures var r := CovExprs(pkg, bs, es); Adds(slot, CtrExprs(pkg, slot, es), CtrExprs(pkg, slot, r.0), bs, r.1)
    decreases SizeExprs(es), 1, 0
  {
    if |es| == 0 {
    } else {
      var (e', b1) := CovExpr(pkg, bs, es[0]);
      var (rest, b2) := CovExprs(pkg, b1, es[1..]);
      CountExpr(pkg, slot, bs, es[0]);
      CountExprs(pkg, slot, b1, es[1..]);
      assert ([e'] + rest)[0] == e' && ([e'] + rest)[1..] == rest;
    }
  }

  lemma {:induction false} CountOptExpr(pkg: string, slot: nat, bs: Blocks, e: Option<Expr>)
    requires WFOptExpr(e)
    ensures var r := CovOptExpr(pkg, bs, e); Adds(slot, CtrOptExpr(pkg, slot, e), CtrOptExpr(pkg, slot, r.0), bs, r.1)
    decreases SizeOptExpr(e), 1, 0
  {
    if e.None? {
    } else {
      CountExpr(pkg, slot, bs, e.value);
    }
  }

  lemma {:induction false} CountBlock(pkg: string, slot: nat, bs: Blocks, b: Block)
    requires WFBlock(b)
    ensures var r := CovBlock(pkg, bs, b); Adds(slot, CtrBlock(pkg, slot, b), CtrBlock(pkg, slot, r.0), bs, r.1)
    decreases SizeBlock(b), 0, 0
  {
    if |b.list| > 0 && IsClause(b.list[0]) {
      var (bodies, b1) := ClauseCounters(pkg, bs, b.list);
      CountClauseCounters(pkg, slot, bs, b.list);
      var (clauses, b2) := WalkClauses(pkg, b1, b.list, bodies);
      CountWalkClauses(pkg, slot, b1, b.list, bodies);
    } else {
      var (out, b1) := AddCounters(pkg, bs, b.lbrace, b.rbrace + 1, b.list, true);
      AddCountersSpec(pkg, bs, b.lbrace, b.rbrace + 1, b.list, true);
      AddCountersCount(pkg, slot, bs, b.lbrace, b.rbrace + 1, b.list, true);
      StripSize(pkg, b.list);
      StripWF(pkg, b.list);
      var (list', b2) := WalkOut(pkg, b1, out);
      CountWalkOut(pkg, slot, b1, out);
    }
  }

  /** The header of a clause: its case expressions or its communication. */
  function HeaderCtr(pkg: string, slot: nat, c: Stmt): nat
    requires c.CaseClause? || c.CommClause?
  {
    if c.CaseClause? then CtrExprs(pkg, slot, c.exprs) else CtrOpt(pkg, slot, c.comm)
  }

  /** The counters of a clause list whose bodies have been replaced by `bodies`. */
  function ClauseSum(pkg: string, slot: nat, cs: seq<Stmt>, bodies: seq<seq<Stmt>>): nat
    requires |bodies| == |cs| && forall i :: 0 <= i < |cs| ==> cs[i].CaseClause? || cs[i].CommClause?
    decreases |cs|
  {
    if |cs| == 0 then 0
    else HeaderCtr(pkg, slot, cs[0]) + CtrList(pkg, slot, bodies[0]) + ClauseSum(pkg, slot, cs[1..], bodies[1..])
  }

  lemma {:induction false} CountClauseCounters(pkg: string, slot: nat, bs: Blocks, cs: seq<Stmt>)
    requires forall i :: 0 <= i < |cs| ==> cs[i].CaseClause? || cs[i].CommClause?
    ensures var r := ClauseCounters(pkg, bs, cs); Adds(slot, CtrList(pkg, slot, cs), ClauseSum(pkg, slot, cs, r.0), bs, r.1)
    decreases |cs|
  {
    if |cs| == 0 {
    } else {
      var c := cs[0];
      var (body, b1) := AddCounters(pkg, bs, StmtPos(c), StmtEnd(c), c.clauseBody, false);
      AddCountersCount(pkg, slot, bs, StmtPos(c), StmtEnd(c), c.clauseBody, false);
      var (rest, b2) := ClauseCounters(pkg, b1, cs[1..]);
      CountClauseCounters(pkg, slot, b1, cs[1..]);
      assert ([body] + rest)[0] == body && ([body] + rest)[1..] == rest;
      assert CtrStmt(pkg, slot, c) == HeaderCtr(pkg, slot, c) + CtrList(pkg, slot, c.clauseBody);
    }
  }

  lemma {:induction false} CountWalkClauses(pkg: string, slot: nat, bs: Blocks, cs: seq<Stmt>, bodies: seq<seq<Stmt>>)
    requires |bodies| == |cs|
    requires forall i :: 0 <= i < |cs| ==> (cs[i].CaseClause? || cs[i].CommClause?) && WFStmt(cs[i])
    requires forall i :: 0 <= i < |cs| ==> Strip(pkg, bodies[i]) == Strip(pkg, cs[i].clauseBody)
    ensures var r := WalkClauses(pkg, bs, cs, bodies); Adds(slot, ClauseSum(pkg, slot, cs, bodies), CtrList(pkg, slot, r.0), bs, r.1)
    decreases SizeList(cs), 1, |cs|
  {
    if |cs| == 0 {
    } else {
      var (c', b1) := WalkClause(pkg, bs, cs[0], bodies[0]);
      CountWalkClause(pkg, slot, bs, cs[0], bodies[0]);
      var (rest, b2) := WalkClauses(pkg, b1, cs[1..], bodies[1..]);
      CountWalkClauses(pkg, slot, b1, cs[1..], bodies[1..]);
      assert ([c'] + rest)[0] == c' && ([c'] + rest)[1..] == rest;
    }
  }

  lemma {:induction false} CountWalkClause(pkg: string, slot: nat, bs: Blocks, c: Stmt, body: seq<Stmt>)
    requires IsClause(c) && WFStmt(c) && Strip(pkg, body) == Strip(pkg, c.clauseBody)
    ensures var r := WalkClause(pkg, bs, c, body); Adds(slot, HeaderCtr(pkg, slot, c) + CtrList(pkg, slot, body), CtrStmt(pkg, slot, r.0), bs, r.1)
    decreases Size(c), 1, 0
  {
    StripSize(pkg, c.clauseBody);
    StripWF(pkg, c.clauseBody);
    match c
    case CaseClause(id, p, es, colon, _) =>
      var (es', b1) := CovExprs(pkg, bs, es);
      CountExprs(pkg, slot, bs, es);
      var (body', b2) := WalkOut(pkg, b1, body);
      CountWalkOut(pkg, slot, b1, body);
    case CommClause(id, p, comm, colon, _) =>
      var (comm', b1) := CovOpt(pkg, bs, comm);
      CountOpt(pkg, slot, bs, comm);
      var (body', b2) := WalkOut(pkg, b1, body);
      CountWalkOut(pkg, slot, b1, body);
  }

  lemma {:induction false} CountWalkOut(pkg: string, slot: nat, bs: Blocks, out: seq<Stmt>)
    requires WFStmts(Strip(pkg, out))
    ensures var r := WalkOut(pkg, bs, out); Adds(slot, CtrList(pkg, slot, out), CtrList(pkg, slot, r.0), bs, r.1)
    decreases SizeList(Strip(pkg, out)), 1, |out|
  {
    if |out| == 0 {
    } else {
      StripCons(pkg, out);
      if IsCounter(pkg, out[0]) {
        var (rest, b1) := WalkOut(pkg, bs, out[1..]);
        CountWalkOut(pkg, slot, bs, out[1..]);
        assert ([out[0]] + rest)[0] == out[0] && ([out[0]] + rest)[1..] == rest;
      } else {
        var (s', b1) := CovStmt(pkg, bs, out[0]);
        CountStmt(pkg, slot, bs, out[0]);
        var (rest, b2) := WalkOut(pkg, b1, out[1..]);
        CountWalkOut(pkg, slot, b1, out[1..]);
        assert ([s'] + rest)[0] == s' && ([s'] + rest)[1..] == rest;
      }
    }
  }

  lemma {:induction false} CountOpt(pkg: string, slot: nat, bs: Blocks, s: Option<Stmt>)
    requires WFOpt(s)
    ensures var r := CovOpt(pkg, bs, s); Adds(slot, CtrOpt(pkg, slot, s), CtrOpt(pkg, slot, r.0), bs, r.1)
    decreases SizeOpt(s), 1, 0
  {
    if s.None? {
    } else {
      CountStmt(pkg, slot, bs, s.value);
    }
  }

  lemma {:induction false} CountStmt(pkg: string, slot: nat, bs: Blocks, s: Stmt)
    requires WFStmt(s)
    ensures var r := CovStmt(pkg, bs, s); Adds(slot, CtrStmt(pkg, slot, s), CtrStmt(pkg, slot, r.0), bs, r.1)
    decreases Size(s), 0, 1
  {
    match s
    case BlockStmt(b) => CountBlock(pkg, slot, bs, b);
    case If(_, _, _, _, _, _) => CountIf(pkg, slot, bs, s);
    case For(_, _, _, _, _, _) => CountLoop(pkg, slot, bs, s);
    case Range(_, _, _, _, _, _) => CountLoop(pkg, slot, bs, s);
    case Switch(_, _, _, _, body) =>
      if |body.list| > 0 { CountSwitch(pkg, slot, bs, s); }
    case TypeSwitch(_, _, _, _, body) =>
      if |body.list| > 0 { CountSwitch(pkg, slot, bs, s); }
    case Select(_, _, body) =>
      if |body.list| > 0 { CountSwitch(pkg, slot, bs, s); }
    case CaseClause(_, _, _, _, _) => CountClause(pkg, slot, bs, s);
    case CommClause(_, _, _, _, _) => CountClause(pkg, slot, bs, s);
    case Labeled(_, _, _, inner) => CountStmt(pkg, slot, bs, inner);
    case Branch(_, _, _) =>
    case ExprStmt(id, x) =>
      if IsCounter(pkg, s) {
        var k := CounterIndexOf(pkg, s).value;
        CounterInert(pkg, bs, k);
      } else {
        var (x', b1) := CovExpr(pkg, bs, x);
        CountExpr(pkg, slot, bs, x);
        ExprShape(pkg, bs, x);
        if !FreeExpr(x) && IsCounter(pkg, ExprStmt(id, x')) {
          CounterFree(pkg, ExprStmt(id, x'));
        }
      }
    case Go(_, _, c) => CountCall(pkg, slot, bs, c);
    case Assign(_, lhs, _, rhs) =>
      var (lhs', b1) := CovExprs(pkg, bs, lhs);
      var (rhs', b2) := CovExprs(pkg, b1, rhs);
      CountExprs(pkg, slot, bs, lhs);
      CountExprs(pkg, slot, b1, rhs);
    case OtherStmt(_, _, _, es) => CountExprs(pkg, slot, bs, es);
  }

  /** Wrapping an else in a block neither adds nor loses counters. */
  lemma ElseBlockCount(pkg: string, slot: nat, body: Block, els: Stmt)
    requires els.If? || els.BlockStmt?
    ensures CtrBlock(pkg, slot, ElseBlock(body, els)) == CtrStmt(pkg, slot, els)
  {
    if els.If? {
      assert [els][1..] == [];
      assert CtrList(pkg, slot, [els]) == CtrStmt(pkg, slot, els) + CtrList(pkg, slot, []);
    }
  }

  lemma {:induction false} CountIf(pkg: string, slot: nat, bs: Blocks, s: Stmt)
    requires s.If? && WFStmt(s)
    ensures var r := CovIf(pkg, bs, s); Adds(slot, CtrStmt(pkg, slot, s), CtrStmt(pkg, slot, r.0), bs, r.1)
    decreases Size(s), 0, 0
  {
    var (body', b1) := CovBlock(pkg, bs, s.body);
    CountBlock(pkg, slot, bs, s.body);
    if s.els.Some? {
      assert WFOpt(s.els);
      assert SizeOpt(s.els) == Size(s.els.value);
      ElseBlockFacts(s.body, s.els.value);
      var w := ElseBlock(s.body, s.els.value);
      var (w', b2) := CovBlock(pkg, b1, w);
      CountBlock(pkg, slot, b1, w);
      ElseBlockCount(pkg, slot, s.body, s.els.value);
      assert CtrOpt(pkg, slot, Some(BlockStmt(w'))) == CtrBlock(pkg, slot, w');
      assert CtrOpt(pkg, slot, s.els) == CtrStmt(pkg, slot, s.els.value);
    }
  }

  lemma {:induction false} CountLoop(pkg: string, slot: nat, bs: Blocks, s: Stmt)
    requires (s.For? || s.Range?) && WFStmt(s)
    ensures var r := CovLoop(pkg, bs, s); Adds(slot, CtrStmt(pkg, slot, s), CtrStmt(pkg, slot, r.0), bs, r.1)
    decreases Size(s), 0, 0
  {
    match s
    case For(id, p, init, cond, post, body) =>
      var (init', b1) := CovOpt(pkg, bs, init);
      var (cond', b2) := CovOptExpr(pkg, b1, cond);
      var (post', b3) := CovOpt(pkg, b2, post);
      var (body', b4) := CovBlock(pkg, b3, body);
      CountOpt(pkg, slot, bs, init);
      CountOptExpr(pkg, slot, b1, cond);
      CountOpt(pkg, slot, b2, post);
      CountBlock(pkg, slot, b3, body);
    case Range(id, p, k, v, x, body) =>
      var (k', b1) := CovOptExpr(pkg, bs, k);
      var (v', b2) := CovOptExpr(pkg, b1, v);
      var (x', b3) := CovExpr(pkg, b2, x);
      var (body', b4) := CovBlock(pkg, b3, body);
      CountOptExpr(pkg, slot, bs, k);
      CountOptExpr(pkg, slot, b1, v);
      CountExpr(pkg, slot, b2, x);
      CountBlock(pkg, slot, b3, body);
  }

  lemma {:induction false} CountSwitch(pkg: string, slot: nat, bs: Blocks, s: Stmt)
    requires (s.Switch? || s.TypeSwitch? || s.Select?) && WFStmt(s)
    ensures var r := CovSwitch(pkg, bs, s); Adds(slot, CtrStmt(pkg, slot, s), CtrStmt(pkg, slot, r.0), bs, r.1)
    decreases Size(s), 0, 0
  {
    match s
    case Switch(id, p, init, tag, body) =>
      var (init', b1) := CovOpt(pkg, bs, init);
      var (tag', b2) := CovOptExpr(pkg, b1, tag);
      var (body', b3) := CovBlock(pkg, b2, body);
      CountOpt(pkg, slot, bs, init);
      CountOptExpr(pkg, slot, b1, tag);
      CountBlock(pkg, slot, b2, body);
    case TypeSwitch(id, p, init, a, body) =>
      var (init', b1) := CovOpt(pkg, bs, init);
      var (a', b2) := CovStmt(pkg, b1, a);
      var (body', b3) := CovBlock(pkg, b2, body);
      CountOpt(pkg, slot, bs, init);
      CountStmt(pkg, slot, b1, a);
      CountBlock(pkg, slot, b2, body);
    case Select(id, p, body) => CountBlock(pkg, slot, bs, body);
  }

  lemma {:induction false} CountClause(pkg: string, slot: nat, bs: Blocks, s: Stmt)
    requires IsClause(s) && WFStmt(s)
    ensures var r := CovClause(pkg, bs, s); Adds(slot, CtrStmt(pkg, slot, s), CtrStmt(pkg, slot, r.0), bs, r.1)
    decreases Size(s), 0, 0
  {
    StripSize(pkg, s.clauseBody);
    StripWF(pkg, s.clauseBody);
    match s
    case CaseClause(id, p, es, colon, body) =>
      var (es', b1) := CovExprs(pkg, bs, es);
      var (body', b2) := WalkOut(pkg, b1, body);
      CountExprs(pkg, slot, bs, es);
      CountWalkOut(pkg, slot, b1, body);
    case CommClause(id, p, comm, colon, body) =>
      var (comm', b1) := CovOpt(pkg, bs, comm);
      var (body', b2) := WalkOut(pkg, b1, body);
      CountOpt(pkg, slot, bs, comm);
      CountWalkOut(pkg, slot, b1, body);
  }

  /* ---------------- a whole file ---------------- */

  lemma {:induction false} CountSpecs(pkg: string, slot: nat, bs: Blocks, specs: seq<Spec>)
    requires WFSpecs(specs)
    ensures var r := CovSpecs(pkg, bs, specs); Adds(slot, CtrSpecs(pkg, slot, specs), CtrSpecs(pkg, slot, r.0), bs, r.1)
    decreases |specs|
  {
    if |specs| > 0 {
      var (sp, b1) :=
        if specs[0].ValueSpec? then
          var (vs, b) := CovExprs(pkg, bs, specs[0].values);
          (ValueSpec(specs[0].names, vs), b)
        else (specs[0], bs);
      if specs[0].ValueSpec? {
        CountExprs(pkg, slot, bs, specs[0].values);
      }
      assert WFSpecs(specs[1..]) by {
        forall i | 0 <= i < |specs[1..]| && specs[1..][i].ValueSpec? ensures WFExprs(specs[1..][i].values) {
          assert specs[1..][i] == specs[i + 1];
        }
      }
      var (rest, b2) := CovSpecs(pkg, b1, specs[1..]);
      CountSpecs(pkg, slot, b1, specs[1..]);
      assert ([sp] + rest)[0] == sp && ([sp] + rest)[1..] == rest;
    }
  }

  lemma {:induction false} CountDecls(pkg: string, slot: nat, bs: Blocks, ds: seq<Decl>)
    requires WFDecls(ds)
    ensures var r := CovDecls(pkg, bs, ds); Adds(slot, CtrDecls(pkg, slot, ds), CtrDecls(pkg, slot, r.0), bs, r.1)
    decreases |ds|
  {
    if |ds| > 0 {
      var (d, b1) :=
        match ds[0]
        case FuncDecl(id, p, name, typeEnd, body) =>
          if body.None? then (ds[0], bs)
          else
            var (body', b) := CovBlock(pkg, bs, body.value);
            (FuncDecl(id, p, name, typeEnd, Some(body')), b)
        case GenDecl(tok, specs) =>
          var (specs', b) := CovSpecs(pkg, bs, specs);
          (GenDecl(tok, specs'), b);
      match ds[0] {
        case FuncDecl(_, _, _, _, body) =>
          if body.Some? {
            CountBlock(pkg, slot, bs, body.value);
          }
        case GenDecl(_, specs) =>
          CountSpecs(pkg, slot, bs, specs);
      }
      assert WFDecls(ds[1..]) by {
        forall i | 0 <= i < |ds[1..]|
          ensures (ds[1..][i].FuncDecl? && ds[1..][i].fbody.Some? ==> WFBlock(ds[1..][i].fbody.value))
            && (ds[1..][i].GenDecl? ==> WFSpecs(ds[1..][i].specs))
        {
          assert ds[1..][i] == ds[i + 1];
        }
      }
      var (rest, b2) := CovDecls(pkg, b1, ds[1..]);
      CountDecls(pkg, slot, b1, ds[1..]);
      assert ([d] + rest)[0] == d && ([d] + rest)[1..] == rest;
    }
  }

  /** The instrumented file holds the counters of the original plus exactly one for each recorded block. */
  lemma CoverFileCounters(pkg: string, f: File, slot: nat)
    requires WFDecls(f.decls)
    ensures var r := CoverFile(pkg, f);
      CtrDecls(pkg, slot, r.0.decls) == CtrDecls(pkg, slot, f.decls) + (if slot < |r.1| then 1 else 0)
  {
    CountDecls(pkg, slot, [], f.decls);
  }

  /**
   A source file with no counter statement of its own comes out with exactly
   one counter for each block recorded in `Blocks`, incrementing that
   block's slot, and with no counter for any other slot.
   */
  lemma OneCounterPerBlock(pkg: string, f: File)
    requires WFDecls(f.decls)
    requires forall slot: nat :: CtrDecls(pkg, slot, f.decls) == 0
    ensures var r := CoverFile(pkg, f);
      forall slot: nat :: CtrDecls(pkg, slot, r.0.decls) == if slot < |r.1| then 1 else 0
  {
    var r := CoverFile(pkg, f);
    forall slot: nat ensures CtrDecls(pkg, slot, r.0.decls) == if slot < |r.1| then 1 else 0 {
      CoverFileCounters(pkg, f, slot);
    }
  }
}

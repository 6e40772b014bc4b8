/**
 Why the extent lists come out in the order the correlator needs. A parsed
 file is laid out in source order: every node's children follow one another
 inside the node's own span. Under that layout and an order-preserving
 position map, the indexer's statement extents are sorted by start, none
 ends before it starts, and every statement's extent holds the extents of
 the statements inside it.

 The layout predicates thread a lower bound `lo` through a node's children:
 each child starts at or after `lo`, and the next child's bound is the end
 of the one before.
 */
module ExtentOrder {
  import opened Ast
  import opened Extents

  /* ---------------- where a run of children ends ---------------- */

  function OptEnd(s: Option<Stmt>, lo: Pos): Pos {
    if s.Some? then StmtEnd(s.value) else lo
  }

  function OptExprEnd(e: Option<Expr>, lo: Pos): Pos {
    if e.Some? then ExprEnd(e.value) else lo
  }

  function ExprsEnd(es: seq<Expr>, lo: Pos): Pos
    decreases |es|
  {
    if |es| == 0 then lo else ExprsEnd(es[1..], ExprEnd(es[0]))
  }

  function StmtsEnd(ss: seq<Stmt>, lo: Pos): Pos
    decreases |ss|
  {
    if |ss| == 0 then lo else StmtsEnd(ss[1..], StmtEnd(ss[0]))
  }

  /* ---------------- source-order layout, as the Go parser produces it ---------------- */

  predicate InExpr(e: Expr, lo: Pos)
    decreases e, 2
  {
    lo <= ExprPos(e) && LaidExpr(e)
  }

  /** An expression whose sub-expressions lie in order inside its own span. */
  predicate LaidExpr(e: Expr)
    decreases e, 1
  {
    ExprPos(e) <= ExprEnd(e)
    && match e
       case Ident(_, _) => true
       case IntLit(_, _) => true
       case Selector(x, _, _) => InExpr(x, ExprPos(e)) && ExprEnd(x) <= ExprEnd(e)
       case Index(x, _, i, _) => InExpr(x, ExprPos(e)) && InExpr(i, ExprEnd(x)) && ExprEnd(i) <= ExprEnd(e)
       case AddrOf(p, x) => InExpr(x, p)
       case Call(c) => InCall(c, ExprPos(e))
       case FuncLit(p, _, b) => InBlock(b, p)
       case OtherExpr(p, end, cs) => InExprs(cs, p) && ExprsEnd(cs, p) <= end
  }

  predicate InCall(c: CallExpr, lo: Pos)
    decreases c, 2
  {
    InExpr(c.fun, lo) && InExprs(c.args, ExprEnd(c.fun)) && ExprsEnd(c.args, ExprEnd(c.fun)) <= c.rparen + 1
  }

  predicate InExprs(es: seq<Expr>, lo: Pos)
    decreases es, 2
  {
    |es| == 0 || (InExpr(es[0], lo) && InExprs(es[1..], ExprEnd(es[0])))
  }

  predicate InOptExpr(e: Option<Expr>, lo: Pos)
    decreases e, 2
  {
    e.Some? ==> InExpr(e.value, lo)
  }

  predicate InBlock(b: Block, lo: Pos)
    decreases b, 2
  {
    lo <= b.lbrace <= b.rbrace && InStmts(b.list, b.lbrace) && StmtsEnd(b.list, b.lbrace) <= BlockEnd(b)
  }

  predicate InStmts(ss: seq<Stmt>, lo: Pos)
    decreases ss, 2
  {
    |ss| == 0 || (InStmt(ss[0], lo) && InStmts(ss[1..], StmtEnd(ss[0])))
  }

  predicate InOpt(s: Option<Stmt>, lo: Pos)
    decreases s, 2
  {
    s.Some? ==> InStmt(s.value, lo)
  }

  predicate InStmt(s: Stmt, lo: Pos)
    decreases s, 2
  {
    lo <= StmtPos(s) && LaidStmt(s)
  }

  /** A statement whose parts lie in source order inside its own span. */
  predicate LaidStmt(s: Stmt)
    decreases s, 1
  {
    StmtPos(s) <= StmtEnd(s)
    && match s
       case BlockStmt(b) => InBlock(b, b.lbrace)
       case If(_, p, init, cond, body, els) =>
         InOpt(init, p) && InExpr(cond, OptEnd(init, p)) && InBlock(body, ExprEnd(cond)) && InOpt(els, BlockEnd(body))
       case For(_, p, init, cond, post, body) =>
         InOpt(init, p) && InOptExpr(cond, OptEnd(init, p)) && InOpt(post, OptExprEnd(cond, OptEnd(init, p)))
         && InBlock(body, OptEnd(post, OptExprEnd(cond, OptEnd(init, p))))
       case Range(_, p, k, v, x, body) =>
         InOptExpr(k, p) && InOptExpr(v, OptExprEnd(k, p)) && InExpr(x, OptExprEnd(v, OptExprEnd(k, p)))
         && InBlock(body, ExprEnd(x))
       case Switch(_, p, init, tag, body) =>
         InOpt(init, p) && InOptExpr(tag, OptEnd(init, p)) && InBlock(body, OptExprEnd(tag, OptEnd(init, p)))
       case TypeSwitch(_, p, init, a, body) =>
         InOpt(init, p) && InStmt(a, OptEnd(init, p)) && InBlock(body, StmtEnd(a))
       case Select(_, p, body) => InBlock(body, p)
       case CaseClause(_, p, es, colon, body) =>
         InExprs(es, p) && ExprsEnd(es, p) <= colon && InStmts(body, colon + 1) && StmtsEnd(body, colon + 1) <= StmtEnd(s)
       case CommClause(_, p, comm, colon, body) =>
         InOpt(comm, p) && OptEnd(comm, p) <= colon && InStmts(body, colon + 1) && StmtsEnd(body, colon + 1) <= StmtEnd(s)
       case Labeled(_, p, _, inner) => InStmt(inner, p)
       case Branch(_, _, _) => true
       case ExprStmt(_, x) => InExpr(x, ExprPos(x))
       case Go(_, p, c) => InCall(c, p)
       case Assign(_, lhs, _, rhs) =>
         InExprs(lhs, StmtPos(s)) && InExprs(rhs, ExprsEnd(lhs, StmtPos(s)))
         && ExprsEnd(rhs, ExprsEnd(lhs, StmtPos(s))) <= StmtEnd(s)
       case OtherStmt(_, p, e, es) => InExprs(es, p) && ExprsEnd(es, p) <= e
  }

  function SpecEnd(sp: Spec, lo: Pos): Pos {
    if sp.ValueSpec? then ExprsEnd(sp.values, lo) else lo
  }

  predicate InSpecs(specs: seq<Spec>, lo: Pos) {
    |specs| == 0
    || ((specs[0].ValueSpec? ==> InExprs(specs[0].values, lo)) && InSpecs(specs[1..], SpecEnd(specs[0], lo)))
  }

  /** Where the next declaration may start: after a function's end, or after a declaration's values. */
  function DeclNext(d: Decl, lo: Pos): Pos {
    match d
    case FuncDecl(_, _, _, _, _) => DeclEnd(d)
    case GenDecl(_, specs) => SpecsEnd(specs, lo)
  }

  function SpecsEnd(specs: seq<Spec>, lo: Pos): Pos {
    if |specs| == 0 then lo else SpecsEnd(specs[1..], SpecEnd(specs[0], lo))
  }

  predicate InDecl(d: Decl, lo: Pos) {
    match d
    case FuncDecl(_, p, _, typeEnd, body) =>
      lo <= p <= typeEnd && (body.Some? ==> InBlock(body.value, typeEnd))
    case GenDecl(_, specs) => InSpecs(specs, lo)
  }

  predicate InDecls(ds: seq<Decl>, lo: Pos) {
    |ds| == 0 || (InDecl(ds[0], lo) && InDecls(ds[1..], DeclNext(ds[0], lo)))
  }

  /** A file as the parser lays it out: declarations in order, each laid out inside its span. */
  predicate LaidOut(f: File) {
    InDecls(f.decls, NoPos)
  }

  /* ---------------- extents between two positions ---------------- */

  /** Every extent starts no earlier than `lo`, does not end before it starts, and ends no later than `hi`. */
  predicate Inside(es: seq<Extent>, lo: LineCol, hi: LineCol) {
    forall i :: 0 <= i < |es| ==> LessEq(lo, es[i].start) && LessEq(es[i].start, es[i].end) && LessEq(es[i].end, hi)
  }

  /** Extents laid out between `lo` and `hi`: sorted by start and inside those bounds. */
  ghost predicate Spans(es: seq<Extent>, at: Pos -> LineCol, lo: Pos, hi: Pos) {
    lo <= hi && SortedByStart(es) && Inside(es, at(lo), at(hi))
  }

  lemma Mono(at: Pos -> LineCol, p: Pos, q: Pos)
    requires Monotone(at) && p <= q
    ensures LessEq(at(p), at(q))
  {
  }

  lemma Widen(es: seq<Extent>, at: Pos -> LineCol, lo: Pos, hi: Pos, lo': Pos, hi': Pos)
    requires Monotone(at) && Spans(es, at, lo, hi) && lo' <= lo && hi <= hi'
    ensures Spans(es, at, lo', hi')
  {
    Mono(at, lo', lo);
    Mono(at, hi, hi');
  }

  /** Two runs of extents, one ending where the other may start, join into one run. */
  lemma Chain(a: seq<Extent>, b: seq<Extent>, at: Pos -> LineCol, lo: Pos, mid: Pos, hi: Pos)
    requires Monotone(at) && Spans(a, at, lo, mid) && Spans(b, at, mid, hi)
    ensures Spans(a + b, at, lo, hi)
  {
    Mono(at, lo, mid);
    Mono(at, mid, hi);
    forall i, j | 0 <= i < j < |a + b| ensures LessEq((a + b)[i].start, (a + b)[j].start) {
      if j < |a| {
        assert (a + b)[i] == a[i] && (a + b)[j] == a[j];
      } else if i < |a| {
        assert (a + b)[i] == a[i] && (a + b)[j] == b[j - |a|];
      } else {
        assert (a + b)[i] == b[i - |a|] && (a + b)[j] == b[j - |a|];
      }
    }
    forall i | 0 <= i < |a + b|
      ensures LessEq(at(lo), (a + b)[i].start) && LessEq((a + b)[i].start, (a + b)[i].end) && LessEq((a + b)[i].end, at(hi))
    {
      if i < |a| {
        assert (a + b)[i] == a[i];
      } else {
        assert (a + b)[i] == b[i - |a|];
      }
    }
  }

  /** A node's own extent followed by the extents inside it. */
  lemma Cons(x: Extent, rest: seq<Extent>, at: Pos -> LineCol, lo: Pos, p: Pos, e: Pos)
    requires Monotone(at) && lo <= p && x == Extent(x.key, at(p), at(e)) && Spans(rest, at, p, e)
    ensures Spans([x] + rest, at, lo, e)
  {
    Mono(at, lo, p);
    Mono(at, p, e);
    forall i, j | 0 <= i < j < |[x] + rest| ensures LessEq(([x] + rest)[i].start, ([x] + rest)[j].start) {
      assert ([x] + rest)[j] == rest[j - 1];
      if i > 0 {
        assert ([x] + rest)[i] == rest[i - 1];
      }
    }
    forall i | 0 <= i < |[x] + rest|
      ensures LessEq(at(lo), ([x] + rest)[i].start) && LessEq(([x] + rest)[i].start, ([x] + rest)[i].end)
        && LessEq(([x] + rest)[i].end, at(e))
    {
      if i > 0 {
        assert ([x] + rest)[i] == rest[i - 1];
      }
    }
  }

  /* ---------------- the layout gives sorted, nested extents ---------------- */

  lemma {:induction false} ExprSpans(e: Expr, lo: Pos, at: Pos -> LineCol)
    requires Monotone(at) && InExpr(e, lo)
    ensures Spans(OfExpr(e, at), at, lo, ExprEnd(e))
    decreases e, 2
  {
    match e
    case Ident(_, _) =>
    case IntLit(_, _) =>
    case Selector(x, _, _) =>
      ExprSpans(x, ExprPos(e), at);
      Widen(OfExpr(x, at), at, ExprPos(e), ExprEnd(x), lo, ExprEnd(e));
    case Index(x, _, i, _) =>
      ExprSpans(x, ExprPos(e), at);
      ExprSpans(i, ExprEnd(x), at);
      Chain(OfExpr(x, at), OfExpr(i, at), at, ExprPos(e), ExprEnd(x), ExprEnd(i));
      Widen(OfExpr(x, at) + OfExpr(i, at), at, ExprPos(e), ExprEnd(i), lo, ExprEnd(e));
    case AddrOf(p, x) =>
      ExprSpans(x, p, at);
      Widen(OfExpr(x, at), at, p, ExprEnd(x), lo, ExprEnd(e));
    case Call(c) =>
      CallSpans(c, ExprPos(e), at);
      Widen(OfCall(c, at), at, ExprPos(e), ExprEnd(e), lo, ExprEnd(e));
    case FuncLit(p, _, b) =>
      BlockSpans(b, p, at);
      Widen(OfBlock(b, at), at, p, ExprEnd(e), lo, ExprEnd(e));
    case OtherExpr(p, end, cs) =>
      ExprsSpans(cs, p, at);
      Widen(OfExprs(cs, at), at, p, ExprsEnd(cs, p), lo, ExprEnd(e));
  }

  lemma {:induction false} CallSpans(c: CallExpr, lo: Pos, at: Pos -> LineCol)
    requires Monotone(at) && InCall(c, lo)
    ensures Spans(OfCall(c, at), at, lo, c.rparen + 1)
    decreases c, 2
  {
    ExprSpans(c.fun, lo, at);
    ExprsSpans(c.args, ExprEnd(c.fun), at);
    Chain(OfExpr(c.fun, at), OfExprs(c.args, at), at, lo, ExprEnd(c.fun), ExprsEnd(c.args, ExprEnd(c.fun)));
    Widen(OfCall(c, at), at, lo, ExprsEnd(c.args, ExprEnd(c.fun)), lo, c.rparen + 1);
  }

  lemma {:induction false} ExprsSpans(es: seq<Expr>, lo: Pos, at: Pos -> LineCol)
    requires Monotone(at) && InExprs(es, lo)
    ensures Spans(OfExprs(es, at), at, lo, ExprsEnd(es, lo))
    decreases es, 2
  {
    if |es| > 0 {
      ExprSpans(es[0], lo, at);
      ExprsSpans(es[1..], ExprEnd(es[0]), at);
      Chain(OfExpr(es[0], at), OfExprs(es[1..], at), at, lo, ExprEnd(es[0]), ExprsEnd(es, lo));
    }
  }

  lemma {:induction false} OptExprSpans(e: Option<Expr>, lo: Pos, at: Pos -> LineCol)
    requires Monotone(at) && InOptExpr(e, lo)
    ensures Spans(OfOptExpr(e, at), at, lo, OptExprEnd(e, lo))
    decreases e, 2
  {
    if e.Some? {
      ExprSpans(e.value, lo, at);
    }
  }

  lemma {:induction false} BlockSpans(b: Block, lo: Pos, at: Pos -> LineCol)
    requires Monotone(at) && InBlock(b, lo)
    ensures Spans(OfBlock(b, at), at, lo, BlockEnd(b))
    decreases b, 2
  {
    StmtsSpans(b.list, b.lbrace, at);
    Widen(OfStmts(b.list, at), at, b.lbrace, StmtsEnd(b.list, b.lbrace), b.lbrace, BlockEnd(b));
    Cons(BlockExtent(b, at), OfStmts(b.list, at), at, lo, b.lbrace, BlockEnd(b));
  }

  lemma {:induction false} StmtsSpans(ss: seq<Stmt>, lo: Pos, at: Pos -> LineCol)
    requires Monotone(at) && InStmts(ss, lo)
    ensures Spans(OfStmts(ss, at), at, lo, StmtsEnd(ss, lo))
    decreases ss, 2
  {
    if |ss| > 0 {
      StmtSpans(ss[0], lo, at);
      StmtsSpans(ss[1..], StmtEnd(ss[0]), at);
      Chain(OfStmt(ss[0], at), OfStmts(ss[1..], at), at, lo, StmtEnd(ss[0]), StmtsEnd(ss, lo));
    }
  }

  lemma {:induction false} OptSpans(s: Option<Stmt>, lo: Pos, at: Pos -> LineCol)
    requires Monotone(at) && InOpt(s, lo)
    ensures Spans(OfOpt(s, at), at, lo, OptEnd(s, lo))
    decreases s, 2
  {
    if s.Some? {
      StmtSpans(s.value, lo, at);
    }
  }

  lemma {:induction false} StmtSpans(s: Stmt, lo: Pos, at: Pos -> LineCol)
    requires Monotone(at) && InStmt(s, lo)
    ensures Spans(OfStmt(s, at), at, lo, StmtEnd(s))
    decreases s, 2
  {
    if s.BlockStmt? {
      var b := s.block;
      BlockSpans(b, b.lbrace, at);
      Widen(OfBlock(b, at), at, b.lbrace, BlockEnd(b), lo, BlockEnd(b));
    } else {
      ChildrenSpans(s, at);
      Cons(StmtExtent(s, at), OfChildren(s, at), at, lo, StmtPos(s), StmtEnd(s));
    }
  }

  lemma {:induction false} ChildrenSpans(s: Stmt, at: Pos -> LineCol)
    requires Monotone(at) && !s.BlockStmt? && LaidStmt(s)
    ensures Spans(OfChildren(s, at), at, StmtPos(s), StmtEnd(s))
    decreases s, 1
  {
    match s
    case If(_, _, _, _, _, _) => IfSpans(s, at);
    case For(_, _, _, _, _, _) => ForSpans(s, at);
    case Range(_, _, _, _, _, _) => RangeSpans(s, at);
    case Switch(_, p, init, tag, body) =>
      var a1 := OptEnd(init, p);
      var a2 := OptExprEnd(tag, a1);
      OptSpans(init, p, at);
      OptExprSpans(tag, a1, at);
      BlockSpans(body, a2, at);
      Chain(OfOpt(init, at), OfOptExpr(tag, at), at, p, a1, a2);
      Chain(OfOpt(init, at) + OfOptExpr(tag, at), OfBlock(body, at), at, p, a2, StmtEnd(s));
    case TypeSwitch(_, p, init, a, body) =>
      var a1 := OptEnd(init, p);
      OptSpans(init, p, at);
      StmtSpans(a, a1, at);
      BlockSpans(body, StmtEnd(a), at);
      Chain(OfOpt(init, at), OfStmt(a, at), at, p, a1, StmtEnd(a));
      Chain(OfOpt(init, at) + OfStmt(a, at), OfBlock(body, at), at, p, StmtEnd(a), StmtEnd(s));
    case Select(_, p, body) => BlockSpans(body, p, at);
    case CaseClause(_, p, es, colon, body) =>
      ExprsSpans(es, p, at);
      Widen(OfExprs(es, at), at, p, ExprsEnd(es, p), p, colon + 1);
      StmtsSpans(body, colon + 1, at);
      Widen(OfStmts(body, at), at, colon + 1, StmtsEnd(body, colon + 1), colon + 1, StmtEnd(s));
      Chain(OfExprs(es, at), OfStmts(body, at), at, p, colon + 1, StmtEnd(s));
    case CommClause(_, p, comm, colon, body) =>
      OptSpans(comm, p, at);
      Widen(OfOpt(comm, at), at, p, OptEnd(comm, p), p, colon + 1);
      StmtsSpans(body, colon + 1, at);
      Widen(OfStmts(body, at), at, colon + 1, StmtsEnd(body, colon + 1), colon + 1, StmtEnd(s));
      Chain(OfOpt(comm, at), OfStmts(body, at), at, p, colon + 1, StmtEnd(s));
    case Labeled(_, p, _, inner) => StmtSpans(inner, p, at);
    case Branch(_, _, _) =>
    case ExprStmt(_, x) => ExprSpans(x, ExprPos(x), at);
    case Go(_, p, c) => CallSpans(c, p, at);
    case Assign(_, lhs, _, rhs) =>
      var m := ExprsEnd(lhs, StmtPos(s));
      ExprsSpans(lhs, StmtPos(s), at);
      ExprsSpans(rhs, m, at);
      Chain(OfExprs(lhs, at), OfExprs(rhs, at), at, StmtPos(s), m, ExprsEnd(rhs, m));
      Widen(OfExprs(lhs, at) + OfExprs(rhs, at), at, StmtPos(s), ExprsEnd(rhs, m), StmtPos(s), StmtEnd(s));
    case OtherStmt(_, p, e, es) =>
      ExprsSpans(es, p, at);
      Widen(OfExprs(es, at), at, p, ExprsEnd(es, p), p, e);
  }

  lemma {:induction false} IfSpans(s: Stmt, at: Pos -> LineCol)
    requires Monotone(at) && s.If? && LaidStmt(s)
    ensures Spans(OfChildren(s, at), at, StmtPos(s), StmtEnd(s))
    decreases s, 0
  {
    var p := s.ifPos;
    var a1 := OptEnd(s.init, p);
    var a2 := ExprEnd(s.cond);
    var a3 := BlockEnd(s.body);
    OptSpans(s.init, p, at);
    ExprSpans(s.cond, a1, at);
    BlockSpans(s.body, a2, at);
    OptSpans(s.els, a3, at);
    var xs := OfOpt(s.init, at) + OfExpr(s.cond, at);
    Chain(OfOpt(s.init, at), OfExpr(s.cond, at), at, p, a1, a2);
    Chain(xs, OfBlock(s.body, at), at, p, a2, a3);
    Chain(xs + OfBlock(s.body, at), OfOpt(s.els, at), at, p, a3, StmtEnd(s));
  }

  lemma {:induction false} ForSpans(s: Stmt, at: Pos -> LineCol)
    requires Monotone(at) && s.For? && LaidStmt(s)
    ensures Spans(OfChildren(s, at), at, StmtPos(s), StmtEnd(s))
    decreases s, 0
  {
    var p := s.forPos;
    var a1 := OptEnd(s.init, p);
    var a2 := OptExprEnd(s.forCond, a1);
    var a3 := OptEnd(s.post, a2);
    OptSpans(s.init, p, at);
    OptExprSpans(s.forCond, a1, at);
    OptSpans(s.post, a2, at);
    BlockSpans(s.body, a3, at);
    var xs := OfOpt(s.init, at) + OfOptExpr(s.forCond, at);
    Chain(OfOpt(s.init, at), OfOptExpr(s.forCond, at), at, p, a1, a2);
    Chain(xs, OfOpt(s.post, at), at, p, a2, a3);
    Chain(xs + OfOpt(s.post, at), OfBlock(s.body, at), at, p, a3, StmtEnd(s));
  }

  lemma {:induction false} RangeSpans(s: Stmt, at: Pos -> LineCol)
    requires Monotone(at) && s.Range? && LaidStmt(s)
    ensures Spans(OfChildren(s, at), at, StmtPos(s), StmtEnd(s))
    decreases s, 0
  {
    var p := s.forPos;
    var a1 := OptExprEnd(s.key, p);
    var a2 := OptExprEnd(s.value, a1);
    var a3 := ExprEnd(s.x);
    OptExprSpans(s.key, p, at);
    OptExprSpans(s.value, a1, at);
    ExprSpans(s.x, a2, at);
    BlockSpans(s.body, a3, at);
    var xs := OfOptExpr(s.key, at) + OfOptExpr(s.value, at);
    Chain(OfOptExpr(s.key, at), OfOptExpr(s.value, at), at, p, a1, a2);
    Chain(xs, OfExpr(s.x, at), at, p, a2, a3);
    Chain(xs + OfExpr(s.x, at), OfBlock(s.body, at), at, p, a3, StmtEnd(s));
  }

  /* ---------------- what the correlator is promised ---------------- */

  /**
   A laid-out statement's extent comes first in its list and holds every
   extent after it, and the list is sorted by start.
   */
  lemma NestedWithinParent(s: Stmt, at: Pos -> LineCol)
    requires Monotone(at) && LaidStmt(s)
    ensures var r := OfStmt(s, at);
      SortedByStart(r) && r[0] == StmtExtent(s, at)
      && forall i :: 1 <= i < |r| ==>
        LessEq(r[0].start, r[i].start) && LessEq(r[i].start, r[i].end) && LessEq(r[i].end, r[0].end)
  {
    StmtSpans(s, StmtPos(s), at);
  }

  lemma {:induction false} SpecsSpans(specs: seq<Spec>, lo: Pos, at: Pos -> LineCol)
    requires Monotone(at) && InSpecs(specs, lo)
    ensures Spans(OfSpecs(specs, at), at, lo, SpecsEnd(specs, lo))
  {
    if |specs| > 0 {
      var m := SpecEnd(specs[0], lo);
      var first := if specs[0].ValueSpec? then OfExprs(specs[0].values, at) else [];
      if specs[0].ValueSpec? {
        ExprsSpans(specs[0].values, lo, at);
      }
      SpecsSpans(specs[1..], m, at);
      Chain(first, OfSpecs(specs[1..], at), at, lo, m, SpecsEnd(specs, lo));
    }
  }

  lemma {:induction false} DeclsSpans(ds: seq<Decl>, lo: Pos, at: Pos -> LineCol) returns (hi: Pos)
    requires Monotone(at) && InDecls(ds, lo)
    ensures Spans(OfDecls(ds, at), at, lo, hi)
  {
    if |ds| == 0 {
      return lo;
    }
    var d := ds[0];
    var m := DeclNext(d, lo);
    match d {
      case FuncDecl(_, p, _, typeEnd, body) =>
        if body.Some? {
          BlockSpans(body.value, typeEnd, at);
          Widen(OfDecl(d, at), at, typeEnd, m, lo, m);
        } else {
          assert lo <= m;
        }
      case GenDecl(_, specs) =>
        SpecsSpans(specs, lo, at);
    }
    var rest := DeclsSpans(ds[1..], m, at);
    Chain(OfDecl(d, at), OfDecls(ds[1..], at), at, lo, m, rest);
    return rest;
  }

  /** The statement extents of a laid-out file are sorted by start, and none ends before it starts. */
  lemma StmtExtentsOrdered(f: File, at: Pos -> LineCol)
    requires Monotone(at) && LaidOut(f)
    ensures var ss := StmtExtents(f, at);
      SortedByStart(ss) && forall i :: 0 <= i < |ss| ==> LessEq(ss[i].start, ss[i].end)
  {
    var hi := DeclsSpans(f.decls, NoPos, at);
  }

  /** In a laid-out file the function keywords come in order, and each function ends no earlier than it starts. */
  lemma {:induction false} FuncsLaidInOrder(ds: seq<Decl>, lo: Pos)
    requires InDecls(ds, lo)
    ensures FuncsInOrder(ds)
    ensures forall i :: 0 <= i < |ds| && ds[i].FuncDecl? ==> lo <= ds[i].funcPos <= DeclEnd(ds[i])
  {
    if |ds| > 0 {
      var m := DeclNext(ds[0], lo);
      assert lo <= m by { DeclNextAfter(ds[0], lo); }
      FuncsLaidInOrder(ds[1..], m);
      forall i | 0 <= i < |ds| && ds[i].FuncDecl? ensures lo <= ds[i].funcPos <= DeclEnd(ds[i]) {
        if i > 0 {
          assert ds[1..][i - 1] == ds[i];
        } else if ds[0].fbody.Some? {
          BlockAfter(ds[0].fbody.value, ds[0].typeEnd);
        }
      }
      forall i, j | 0 <= i < j < |ds| && ds[i].FuncDecl? && ds[j].FuncDecl? ensures ds[i].funcPos <= ds[j].funcPos {
        assert ds[1..][j - 1] == ds[j];
        if i > 0 {
          assert ds[1..][i - 1] == ds[i];
        } else if ds[0].fbody.Some? {
          BlockAfter(ds[0].fbody.value, ds[0].typeEnd);
        }
      }
    }
  }

  lemma DeclNextAfter(d: Decl, lo: Pos)
    requires InDecl(d, lo)
    ensures lo <= DeclNext(d, lo)
  {
    match d
    case FuncDecl(_, _, _, typeEnd, body) =>
      if body.Some? {
        BlockAfter(body.value, typeEnd);
      }
    case GenDecl(_, specs) =>
      SpecsAfter(specs, lo);
  }

  lemma {:induction false} SpecsAfter(specs: seq<Spec>, lo: Pos)
    requires InSpecs(specs, lo)
    ensures lo <= SpecsEnd(specs, lo)
  {
    if |specs| > 0 {
      if specs[0].ValueSpec? {
        ExprsAfter(specs[0].values, lo);
      }
      SpecsAfter(specs[1..], SpecEnd(specs[0], lo));
    }
  }

  lemma {:induction false} ExprsAfter(es: seq<Expr>, lo: Pos)
    requires InExprs(es, lo)
    ensures lo <= ExprsEnd(es, lo)
  {
    if |es| > 0 {
      assert LaidExpr(es[0]);
      ExprsAfter(es[1..], ExprEnd(es[0]));
    }
  }

  lemma BlockAfter(b: Block, lo: Pos)
    requires InBlock(b, lo)
    ensures lo <= BlockEnd(b)
  {
    StmtsAfter(b.list, b.lbrace);
  }

  lemma {:induction false} StmtsAfter(ss: seq<Stmt>, lo: Pos)
    requires InStmts(ss, lo)
    ensures lo <= StmtsEnd(ss, lo)
  {
    if |ss| > 0 {
      assert LaidStmt(ss[0]);
      StmtsAfter(ss[1..], StmtEnd(ss[0]));
    }
  }

  /** The function extents of a laid-out file are sorted by start, and none ends before it starts. */
  lemma FuncExtentsOrdered(f: File, at: Pos -> LineCol)
    requires Monotone(at) && LaidOut(f)
    ensures var fs := FuncExtents(f, at);
      SortedByStart(fs) && forall i :: 0 <= i < |fs| ==> LessEq(fs[i].start, fs[i].end)
  {
    FuncsLaidInOrder(f.decls, NoPos);
    FuncExtentsSorted(f.decls, at);
    FuncExtentsExact(f.decls, at);
    var fs := FuncExtents(f, at);
    forall i | 0 <= i < |fs| ensures LessEq(fs[i].start, fs[i].end) {
      var d := FuncDecls(f.decls)[i];
      var k :| 0 <= k < |f.decls| && f.decls[k] == d;
      Mono(at, d.funcPos, DeclEnd(d));
    }
  }
}

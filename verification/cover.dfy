/**
 The basic-block counters of build/cover.go: finding function literals,
 deciding where a basic block of source ends, building the counter statement
 `atomic.AddUint32(&DiscoverCover.Count[traceID][k], 1)`, and `addCounters`,
 which splits a statement list into basic blocks and puts a counter in front
 of each. The list of recorded blocks is threaded through explicitly.
 */
module Cover {
  import opened Ast

  /** A recorded basic block: its source span and how many statements it covers. */
  datatype BasicBlock = BasicBlock(start: Pos, end: Pos, numStmt: nat)

  /* ---------------- funcLitFinder ---------------- */

  /** The finder's state: a position that is `NoPos` until something is found. */
  function OrPos(a: Pos, b: Pos): (r: Pos)
    ensures r == a || r == b
    ensures r == NoPos <==> a == NoPos && b == NoPos
  {
    if a != NoPos then a else b
  }

  // The left brace of the body of the first function literal met in walk order,
  // not looking inside literals, or NoPos. A literal whose body brace is NoPos
  // leaves the finder unset, so the search goes on after it.

  function LitExpr(e: Expr): Pos
    decreases e, 1
  {
    match e
    case Ident(_, _) => NoPos
    case IntLit(_, _) => NoPos
    case Selector(x, _, _) => LitExpr(x)
    case Index(x, _, i, _) => OrPos(LitExpr(x), LitExpr(i))
    case AddrOf(_, x) => LitExpr(x)
    case Call(c) => LitCall(c)
    case FuncLit(_, _, b) => b.lbrace
    case OtherExpr(_, _, cs) => LitExprs(cs)
  }

  function LitCall(c: CallExpr): Pos
    decreases c, 0
  {
    OrPos(LitExpr(c.fun), LitExprs(c.args))
  }

  function LitExprs(es: seq<Expr>): Pos
    decreases es, 1
  {
    if |es| == 0 then NoPos else OrPos(LitExpr(es[0]), LitExprs(es[1..]))
  }

  function LitOptExpr(e: Option<Expr>): Pos
    decreases e, 1
  {
    if e.Some? then LitExpr(e.value) else NoPos
  }

  function LitBlock(b: Block): Pos
    decreases b, 1
  {
    LitStmts(b.list)
  }

  function LitStmts(ss: seq<Stmt>): Pos
    decreases ss, 1
  {
    if |ss| == 0 then NoPos else OrPos(LitStmt(ss[0]), LitStmts(ss[1..]))
  }

  function LitOpt(s: Option<Stmt>): Pos
    decreases s, 1
  {
    if s.Some? then LitStmt(s.value) else NoPos
  }

  function LitStmt(s: Stmt): Pos
    decreases s, 1
  {
    match s
    case BlockStmt(b) => LitBlock(b)
    case If(_, _, init, cond, body, els) => OrPos(OrPos(OrPos(LitOpt(init), LitExpr(cond)), LitBlock(body)), LitOpt(els))
    case For(_, _, init, cond, post, body) => OrPos(OrPos(OrPos(LitOpt(init), LitOptExpr(cond)), LitOpt(post)), LitBlock(body))
    case Range(_, _, k, v, x, body) => OrPos(OrPos(OrPos(LitOptExpr(k), LitOptExpr(v)), LitExpr(x)), LitBlock(body))
    case Switch(_, _, init, tag, body) => OrPos(OrPos(LitOpt(init), LitOptExpr(tag)), LitBlock(body))
    case TypeSwitch(_, _, init, a, body) => OrPos(OrPos(LitOpt(init), LitStmt(a)), LitBlock(body))
    case Select(_, _, body) => LitBlock(body)
    case CaseClause(_, _, es, _, body) => OrPos(LitExprs(es), LitStmts(body))
    case CommClause(_, _, comm, _, body) => OrPos(LitOpt(comm), LitStmts(body))
    case Labeled(_, _, _, inner) => LitStmt(inner)
    case Branch(_, _, _) => NoPos
    case ExprStmt(_, x) => LitExpr(x)
    case Go(_, _, c) => LitCall(c)
    case Assign(_, lhs, _, rhs) => OrPos(LitExprs(lhs), LitExprs(rhs))
    case OtherStmt(_, _, _, es) => LitExprs(es)
  }

  /** `hasFuncLiteral`: whether the finder found a literal. */
  predicate HasFuncLit(s: Stmt) {
    LitStmt(s) != NoPos
  }

  /* ---------------- a reference: every outermost literal, in walk order ---------------- */

  function LitsExpr(e: Expr): seq<Pos> {
    match e
    case Ident(_, _) => []
    case IntLit(_, _) => []
    case Selector(x, _, _) => LitsExpr(x)
    case Index(x, _, i, _) => LitsExpr(x) + LitsExpr(i)
    case AddrOf(_, x) => LitsExpr(x)
    case Call(c) => LitsExpr(c.fun) + LitsExprs(c.args)
    case FuncLit(_, _, b) => [b.lbrace]
    case OtherExpr(_, _, cs) => LitsExprs(cs)
  }

  function LitsExprs(es: seq<Expr>): seq<Pos> {
    if |es| == 0 then [] else LitsExpr(es[0]) + LitsExprs(es[1..])
  }

  function LitsOptExpr(e: Option<Expr>): seq<Pos> {
    if e.Some? then LitsExpr(e.value) else []
  }

  function LitsStmts(ss: seq<Stmt>): seq<Pos> {
    if |ss| == 0 then [] else LitsStmt(ss[0]) + LitsStmts(ss[1..])
  }

  function LitsOpt(s: Option<Stmt>): seq<Pos> {
    if s.Some? then LitsStmt(s.value) else []
  }

  function LitsStmt(s: Stmt): seq<Pos> {
    match s
    case BlockStmt(b) => LitsStmts(b.list)
    case If(_, _, init, cond, body, els) => LitsOpt(init) + LitsExpr(cond) + LitsStmts(body.list) + LitsOpt(els)
    case For(_, _, init, cond, post, body) => LitsOpt(init) + LitsOptExpr(cond) + LitsOpt(post) + LitsStmts(body.list)
    case Range(_, _, k, v, x, body) => LitsOptExpr(k) + LitsOptExpr(v) + LitsExpr(x) + LitsStmts(body.list)
    case Switch(_, _, init, tag, body) => LitsOpt(init) + LitsOptExpr(tag) + LitsStmts(body.list)
    case TypeSwitch(_, _, init, a, body) => LitsOpt(init) + LitsStmt(a) + LitsStmts(body.list)
    case Select(_, _, body) => LitsStmts(body.list)
    case CaseClause(_, _, es, _, body) => LitsExprs(es) + LitsStmts(body)
    case CommClause(_, _, comm, _, body) => LitsOpt(comm) + LitsStmts(body)
    case Labeled(_, _, _, inner) => LitsStmt(inner)
    case Branch(_, _, _) => []
    case ExprStmt(_, x) => LitsExpr(x)
    case Go(_, _, c) => LitsExpr(c.fun) + LitsExprs(c.args)
    case Assign(_, lhs, _, rhs) => LitsExprs(lhs) + LitsExprs(rhs)
    case OtherStmt(_, _, _, es) => LitsExprs(es)
  }

  function FirstSet(ps: seq<Pos>): (r: Pos)
    ensures r == NoPos <==> forall i :: 0 <= i < |ps| ==> ps[i] == NoPos
    ensures r != NoPos ==> r in ps
  {
    if |ps| == 0 then NoPos else OrPos(ps[0], FirstSet(ps[1..]))
  }

  lemma {:induction false} FirstSetAppend(a: seq<Pos>, b: seq<Pos>)
    ensures FirstSet(a + b) == OrPos(FirstSet(a), FirstSet(b))
  {
    if |a| == 0 {
      assert a + b == b;
    } else {
      assert (a + b)[1..] == a[1..] + b;
      FirstSetAppend(a[1..], b);
    }
  }

  lemma FirstSetAppend3(a: seq<Pos>, b: seq<Pos>, c: seq<Pos>)
    ensures FirstSet(a + b + c) == OrPos(OrPos(FirstSet(a), FirstSet(b)), FirstSet(c))
  {
    FirstSetAppend(a, b);
    FirstSetAppend(a + b, c);
  }

  lemma FirstSetAppend4(a: seq<Pos>, b: seq<Pos>, c: seq<Pos>, d: seq<Pos>)
    ensures FirstSet(a + b + c + d) == OrPos(OrPos(OrPos(FirstSet(a), FirstSet(b)), FirstSet(c)), FirstSet(d))
  {
    FirstSetAppend3(a, b, c);
    FirstSetAppend(a + b + c, d);
  }

  /** The finder returns the first literal brace that is set, among the outermost literals in walk order. */
  lemma {:induction false} LitExprFirst(e: Expr)
    ensures LitExpr(e) == FirstSet(LitsExpr(e))
    decreases e, 1
  {
    match e
    case Ident(_, _) =>
    case IntLit(_, _) =>
    case Selector(x, _, _) => LitExprFirst(x);
    case Index(x, _, i, _) => LitExprFirst(x); LitExprFirst(i); FirstSetAppend(LitsExpr(x), LitsExpr(i));
    case AddrOf(_, x) => LitExprFirst(x);
    case Call(c) => LitCallFirst(c);
    case FuncLit(_, _, b) =>
    case OtherExpr(_, _, cs) => LitExprsFirst(cs);
  }

  lemma {:induction false} LitCallFirst(c: CallExpr)
    ensures LitCall(c) == FirstSet(LitsExpr(c.fun) + LitsExprs(c.args))
    decreases c, 0
  {
    LitExprFirst(c.fun);
    LitExprsFirst(c.args);
    FirstSetAppend(LitsExpr(c.fun), LitsExprs(c.args));
  }

  lemma {:induction false} LitExprsFirst(es: seq<Expr>)
    ensures LitExprs(es) == FirstSet(LitsExprs(es))
    decreases es, 1
  {
    if |es| > 0 {
      LitExprFirst(es[0]);
      LitExprsFirst(es[1..]);
      FirstSetAppend(LitsExpr(es[0]), LitsExprs(es[1..]));
    }
  }

  lemma {:induction false} LitOptExprFirst(e: Option<Expr>)
    ensures LitOptExpr(e) == FirstSet(LitsOptExpr(e))
    decreases e, 1
  {
    if e.Some? {
      LitExprFirst(e.value);
    }
  }

  lemma {:induction false} LitStmtsFirst(ss: seq<Stmt>)
    ensures LitStmts(ss) == FirstSet(LitsStmts(ss))
    decreases ss, 1
  {
    if |ss| > 0 {
      LitStmtFirst(ss[0]);
      LitStmtsFirst(ss[1..]);
      FirstSetAppend(LitsStmt(ss[0]), LitsStmts(ss[1..]));
    }
  }

  lemma {:induction false} LitOptFirst(s: Option<Stmt>)
    ensures LitOpt(s) == FirstSet(LitsOpt(s))
    decreases s, 1
  {
    if s.Some? {
      LitStmtFirst(s.value);
    }
  }

  lemma {:induction false} LitStmtFirst(s: Stmt)
    ensures LitStmt(s) == FirstSet(LitsStmt(s))
    decreases s, 1
  {
    match s
    case BlockStmt(b) => LitStmtsFirst(b.list);
    case If(_, _, init, cond, body, els) =>
      LitOptFirst(init); LitExprFirst(cond); LitStmtsFirst(body.list); LitOptFirst(els);
      FirstSetAppend4(LitsOpt(init), LitsExpr(cond), LitsStmts(body.list), LitsOpt(els));
    case For(_, _, init, cond, post, body) =>
      LitOptFirst(init); LitOptExprFirst(cond); LitOptFirst(post); LitStmtsFirst(body.list);
      FirstSetAppend4(LitsOpt(init), LitsOptExpr(cond), LitsOpt(post), LitsStmts(body.list));
    case Range(_, _, k, v, x, body) =>
      LitOptExprFirst(k); LitOptExprFirst(v); LitExprFirst(x); LitStmtsFirst(body.list);
      FirstSetAppend4(LitsOptExpr(k), LitsOptExpr(v), LitsExpr(x), LitsStmts(body.list));
    case Switch(_, _, init, tag, body) =>
      LitOptFirst(init); LitOptExprFirst(tag); LitStmtsFirst(body.list);
      FirstSetAppend3(LitsOpt(init), LitsOptExpr(tag), LitsStmts(body.list));
    case TypeSwitch(_, _, init, a, body) =>
      LitOptFirst(init); LitStmtFirst(a); LitStmtsFirst(body.list);
      FirstSetAppend3(LitsOpt(init), LitsStmt(a), LitsStmts(body.list));
    case Select(_, _, body) => LitStmtsFirst(body.list);
    case CaseClause(_, _, es, _, body) =>
      LitExprsFirst(es); LitStmtsFirst(body); FirstSetAppend(LitsExprs(es), LitsStmts(body));
    case CommClause(_, _, comm, _, body) =>
      LitOptFirst(comm); LitStmtsFirst(body); FirstSetAppend(LitsOpt(comm), LitsStmts(body));
    case Labeled(_, _, _, inner) => LitStmtFirst(inner);
    case Branch(_, _, _) =>
    case ExprStmt(_, x) => LitExprFirst(x);
    case Go(_, _, c) => LitCallFirst(c);
    case Assign(_, lhs, _, rhs) =>
      LitExprsFirst(lhs); LitExprsFirst(rhs); FirstSetAppend(LitsExprs(lhs), LitsExprs(rhs));
    case OtherStmt(_, _, _, es) => LitExprsFirst(es);
  }

  /** `hasFuncLiteral` reports a literal exactly when some outermost literal has its body brace set. */
  lemma HasFuncLitIff(s: Stmt)
    ensures HasFuncLit(s) <==> exists i :: 0 <= i < |LitsStmt(s)| && LitsStmt(s)[i] != NoPos
  {
    LitStmtFirst(s);
  }

  /* ---------------- basic-block boundaries ---------------- */

  /** Where the basic block that `s` belongs to stops: a literal's body in a header first, then the body's brace. */
  function StatementBoundary(s: Stmt): Pos {
    match s
    case BlockStmt(b) => b.lbrace
    case If(_, _, init, cond, body, _) => OrPos(LitOpt(init), OrPos(LitExpr(cond), body.lbrace))
    case For(_, _, init, cond, post, body) =>
      OrPos(LitOpt(init), OrPos(LitOptExpr(cond), OrPos(LitOpt(post), body.lbrace)))
    case Labeled(_, _, _, inner) => StatementBoundary(inner)
    case Range(_, _, _, _, x, body) => OrPos(LitExpr(x), body.lbrace)
    case Switch(_, _, init, tag, body) => OrPos(LitOpt(init), OrPos(LitOptExpr(tag), body.lbrace))
    case Select(_, _, body) => body.lbrace
    case TypeSwitch(_, _, init, _, body) => OrPos(LitOpt(init), body.lbrace)
    case _ => OrPos(LitStmt(s), StmtEnd(s))
  }

  predicate IsPanicCall(s: Stmt) {
    s.ExprStmt? && s.x.Call? && s.x.call.fun.Ident? && s.x.call.fun.name == "panic" && |s.x.call.args| == 1
  }

  /**
   Whether `s` is the last statement of its basic block. A statement that
   does not end one has its boundary at its own end, so a block that runs on
   past it is never cut short inside it.
   */
  predicate EndsBasicSourceBlock(s: Stmt): (r: bool)
    ensures !r ==> StatementBoundary(s) == StmtEnd(s) && !HasFuncLit(s)
  {
    match s
    case BlockStmt(_) => true
    case Branch(_, _, _) => true
    case For(_, _, _, _, _, _) => true
    case If(_, _, _, _, _, _) => true
    case Labeled(_, _, _, inner) => EndsBasicSourceBlock(inner)
    case Range(_, _, _, _, _, _) => true
    case Switch(_, _, _, _, _) => true
    case Select(_, _, _) => true
    case TypeSwitch(_, _, _, _, _) => true
    case _ => IsPanicCall(s) || HasFuncLit(s)
  }

  /** Control statements end a block, whatever they contain; a label defers to what it labels. */
  lemma EndsBasicSourceBlockCases(s: Stmt)
    ensures (s.BlockStmt? || s.Branch? || s.For? || s.If? || s.Range? || s.Switch? || s.Select? || s.TypeSwitch?)
      ==> EndsBasicSourceBlock(s)
    ensures s.Labeled? ==> (EndsBasicSourceBlock(s) <==> EndsBasicSourceBlock(s.stmt))
    ensures !s.Labeled? && HasFuncLit(s) ==> EndsBasicSourceBlock(s)
    ensures IsPanicCall(s) ==> EndsBasicSourceBlock(s)
    ensures (s.ExprStmt? || s.Assign? || s.Go? || s.OtherStmt?) ==> (EndsBasicSourceBlock(s) <==> IsPanicCall(s) || HasFuncLit(s))
  {
  }

  /* ---------------- counters ---------------- */

  /** `DiscoverCover.Count[traceID][k]` */
  function CounterRef(k: nat): Expr {
    Index(Index(Selector(Ident(NoPos, CoverVar), NoPos, "Count"), NoPos, Ident(NoPos, TraceIdName), NoPos),
          NoPos, IntLit(NoPos, k), NoPos)
  }

  /** `atomic.AddUint32(&DiscoverCover.Count[traceID][k], 1)`, with `pkg` the local name of sync/atomic. */
  function CounterStmt(pkg: string, k: nat): Stmt {
    ExprStmt(NoId, Call(CallExpr(Selector(Ident(NoPos, pkg), NoPos, "AddUint32"), NoPos,
                                 [AddrOf(NoPos, CounterRef(k)), IntLit(NoPos, 1)], NoPos, NoPos)))
  }

  /** The index a counter statement increments, recovered from its literal. */
  function CounterIndexOf(pkg: string, s: Stmt): (r: Option<nat>)
    ensures r.Some? ==> s == CounterStmt(pkg, r.value)
  {
    if s.ExprStmt? && s.x.Call? && |s.x.call.args| == 2 && s.x.call.args[0].AddrOf?
       && s.x.call.args[0].x.Index? && s.x.call.args[0].x.index.IntLit?
       && s == CounterStmt(pkg, s.x.call.args[0].x.index.value)
    then Some(s.x.call.args[0].x.index.value)
    else None
  }

  predicate IsCounter(pkg: string, s: Stmt) {
    CounterIndexOf(pkg, s).Some?
  }

  lemma CounterRoundTrip(pkg: string, k: nat)
    ensures CounterIndexOf(pkg, CounterStmt(pkg, k)) == Some(k)
  {
  }

  /** `newCounter`: the counter for the next index, and the block list with its block appended. */
  function NewCounter(pkg: string, bs: seq<BasicBlock>, start: Pos, end: Pos, n: nat): (r: (Stmt, seq<BasicBlock>))
    ensures CounterIndexOf(pkg, r.0) == Some(|bs|)
    ensures r.1 == bs + [BasicBlock(start, end, n)]
  {
    CounterRoundTrip(pkg, |bs|);
    (CounterStmt(pkg, |bs|), bs + [BasicBlock(start, end, n)])
  }

  /** Deletes every counter statement. */
  function Strip(pkg: string, ss: seq<Stmt>): (r: seq<Stmt>)
    ensures |r| <= |ss|
  {
    if |ss| == 0 then []
    else (if IsCounter(pkg, ss[0]) then [] else [ss[0]]) + Strip(pkg, ss[1..])
  }

  /** The indices of the counter statements of a list, in order. */
  function CounterIndices(pkg: string, ss: seq<Stmt>): seq<nat> {
    if |ss| == 0 then []
    else (if IsCounter(pkg, ss[0]) then [CounterIndexOf(pkg, ss[0]).value] else []) + CounterIndices(pkg, ss[1..])
  }

  function Slots(lo: nat, hi: nat): (r: seq<nat>)
    requires lo <= hi
    ensures |r| == hi - lo && forall i :: 0 <= i < |r| ==> r[i] == lo + i
    decreases hi - lo
  {
    if lo == hi then [] else [lo] + Slots(lo + 1, hi)
  }

  predicate NoCounters(pkg: string, ss: seq<Stmt>) {
    forall i :: 0 <= i < |ss| ==> !IsCounter(pkg, ss[i])
  }

  /* ---------------- addCounters ---------------- */

  /** The length of the first basic block of a list: up to and including the first statement that ends one. */
  function ChunkLen(list: seq<Stmt>): (n: nat)
    requires |list| > 0
    ensures 1 <= n <= |list|
    ensures forall i :: 0 <= i < n - 1 ==> !EndsBasicSourceBlock(list[i])
    ensures n < |list| ==> EndsBasicSourceBlock(list[n - 1])
  {
    if EndsBasicSourceBlock(list[0]) || |list| == 1 then 1 else 1 + ChunkLen(list[1..])
  }

  /**
   `addCounters` on a non-empty list: one iteration of the outer loop per basic
   block. `extend` is `extendToClosingBrace`, which a block-ending statement
   turns off for good.
   */
  function Chunks(pkg: string, bs: seq<BasicBlock>, pos: Pos, blockEnd: Pos, list: seq<Stmt>, extend: bool)
    : (r: (seq<Stmt>, seq<BasicBlock>))
    requires |list| > 0
    ensures |bs| <= |r.1| && r.1[..|bs|] == bs
    ensures forall k :: |bs| <= k < |r.1| ==> r.1[k].start != r.1[k].end && 1 <= r.1[k].numStmt <= |list|
    ensures |r.0| == |list| + (|r.1| - |bs|)
    decreases |list|
  {
    var last := ChunkLen(list);
    var ext := extend && !EndsBasicSourceBlock(list[last - 1]);
    var end := if ext then blockEnd else StatementBoundary(list[last - 1]);
    var head := if pos != end then [CounterStmt(pkg, |bs|)] else [];
    var bs1 := Grow(bs, pos, end, last);
    if last == |list| then (head + list, bs1)
    else
      var rest := Chunks(pkg, bs1, StmtPos(list[last]), blockEnd, list[last..], ext);
      assert rest.1[..|bs|] == rest.1[..|bs1|][..|bs|];
      (head + list[..last] + rest.0, rest.1)
  }

  /** The block list after one basic block from `pos` to `end` of `n` statements; an empty span records nothing. */
  function Grow(bs: seq<BasicBlock>, pos: Pos, end: Pos, n: nat): (r: seq<BasicBlock>)
    ensures |bs| <= |r| <= |bs| + 1 && r[..|bs|] == bs
    ensures |r| == |bs| + 1 <==> pos != end
    ensures forall k :: |bs| <= k < |r| ==> r[k] == BasicBlock(pos, end, n)
  {
    if pos != end then bs + [BasicBlock(pos, end, n)] else bs
  }

  /**
   `addCounters`: earlier blocks are kept, the statements are all kept in
   order, and one counter statement is inserted per block recorded.
   */
  function AddCounters(pkg: string, bs: seq<BasicBlock>, pos: Pos, blockEnd: Pos, list: seq<Stmt>, extend: bool)
    : (r: (seq<Stmt>, seq<BasicBlock>))
    ensures |bs| < |r.1| || |list| > 0
    ensures |bs| <= |r.1| && r.1[..|bs|] == bs
    ensures Strip(pkg, r.0) == Strip(pkg, list)
    ensures |r.0| == |list| + (|r.1| - |bs|)
  {
    if |list| == 0 then
      HeadFacts(pkg, |bs|);
      ([CounterStmt(pkg, |bs|)], bs + [BasicBlock(pos, blockEnd, 0)])
    else
      ChunksStrip(pkg, bs, pos, blockEnd, list, extend);
      Chunks(pkg, bs, pos, blockEnd, list, extend)
  }

  /* ---------------- what addCounters promises ---------------- */

  lemma SplitAt<T>(s: seq<T>, i: nat)
    requires i <= |s|
    ensures s == s[..i] + s[i..]
  {
  }

  lemma {:induction false} StripAppend(pkg: string, a: seq<Stmt>, b: seq<Stmt>)
    ensures Strip(pkg, a + b) == Strip(pkg, a) + Strip(pkg, b)
  {
    if |a| == 0 {
      assert a + b == b;
    } else {
      assert (a + b)[1..] == a[1..] + b;
      StripAppend(pkg, a[1..], b);
    }
  }

  lemma {:induction false} CounterIndicesAppend(pkg: string, a: seq<Stmt>, b: seq<Stmt>)
    ensures CounterIndices(pkg, a + b) == CounterIndices(pkg, a) + CounterIndices(pkg, b)
  {
    if |a| == 0 {
      assert a + b == b;
    } else {
      assert (a + b)[1..] == a[1..] + b;
      CounterIndicesAppend(pkg, a[1..], b);
    }
  }

  lemma {:induction false} NoCountersIndices(pkg: string, ss: seq<Stmt>)
    requires NoCounters(pkg, ss)
    ensures CounterIndices(pkg, ss) == [] && Strip(pkg, ss) == ss
  {
    if |ss| > 0 {
      NoCountersIndices(pkg, ss[1..]);
    }
  }

  lemma SlotsAppend(a: nat, b: nat, c: nat)
    requires a <= b <= c
    ensures Slots(a, b) + Slots(b, c) == Slots(a, c)
  {
  }

  lemma HeadFacts(pkg: string, k: nat)
    ensures Strip(pkg, [CounterStmt(pkg, k)]) == []
    ensures CounterIndices(pkg, [CounterStmt(pkg, k)]) == [k]
  {
    CounterRoundTrip(pkg, k);
  }

  lemma {:induction false} ChunksStrip(pkg: string, bs: seq<BasicBlock>, pos: Pos, blockEnd: Pos, list: seq<Stmt>, extend: bool)
    requires |list| > 0
    ensures Strip(pkg, Chunks(pkg, bs, pos, blockEnd, list, extend).0) == Strip(pkg, list)
    decreases |list|
  {
    var last := ChunkLen(list);
    var ext := extend && !EndsBasicSourceBlock(list[last - 1]);
    var end := if ext then blockEnd else StatementBoundary(list[last - 1]);
    var head := if pos != end then [CounterStmt(pkg, |bs|)] else [];
    var bs1 := if pos != end then bs + [BasicBlock(pos, end, last)] else bs;
    HeadFacts(pkg, |bs|);
    if last == |list| {
      StripAppend(pkg, head, list);
    } else {
      var rest := Chunks(pkg, bs1, StmtPos(list[last]), blockEnd, list[last..], ext);
      ChunksStrip(pkg, bs1, StmtPos(list[last]), blockEnd, list[last..], ext);
      StripStep(pkg, head, list, last, rest.0);
    }
  }

  lemma StripStep(pkg: string, head: seq<Stmt>, list: seq<Stmt>, last: nat, rest: seq<Stmt>)
    requires last <= |list| && Strip(pkg, head) == [] && Strip(pkg, rest) == Strip(pkg, list[last..])
    ensures Strip(pkg, head + list[..last] + rest) == Strip(pkg, list)
  {
    SplitAt(list, last);
    StripAppend(pkg, list[..last], list[last..]);
    StripAppend(pkg, head, list[..last]);
    StripAppend(pkg, head + list[..last], rest);
  }

  lemma {:induction false} ChunksIndices(pkg: string, bs: seq<BasicBlock>, pos: Pos, blockEnd: Pos, list: seq<Stmt>, extend: bool)
    requires |list| > 0 && NoCounters(pkg, list)
    ensures var r := Chunks(pkg, bs, pos, blockEnd, list, extend);
      CounterIndices(pkg, r.0) == Slots(|bs|, |r.1|)
    decreases |list|
  {
    var last := ChunkLen(list);
    var ext := extend && !EndsBasicSourceBlock(list[last - 1]);
    var end := if ext then blockEnd else StatementBoundary(list[last - 1]);
    var head := if pos != end then [CounterStmt(pkg, |bs|)] else [];
    var bs1 := if pos != end then bs + [BasicBlock(pos, end, last)] else bs;
    HeadFacts(pkg, |bs|);
    assert CounterIndices(pkg, head) == Slots(|bs|, |bs1|);
    if last == |list| {
      CounterIndicesAppend(pkg, head, list);
      NoCountersIndices(pkg, list);
    } else {
      var rest := Chunks(pkg, bs1, StmtPos(list[last]), blockEnd, list[last..], ext);
      NoCountersSplit(pkg, list, last);
      ChunksIndices(pkg, bs1, StmtPos(list[last]), blockEnd, list[last..], ext);
      IndicesStep(pkg, head, list[..last], rest.0, |bs|, |bs1|, |rest.1|);
    }
  }

  lemma NoCountersSplit(pkg: string, list: seq<Stmt>, last: nat)
    requires last <= |list| && NoCounters(pkg, list)
    ensures NoCounters(pkg, list[..last]) && NoCounters(pkg, list[last..])
  {
    assert forall i :: 0 <= i < |list| - last ==> list[last..][i] == list[last + i];
    assert forall i :: 0 <= i < last ==> list[..last][i] == list[i];
  }

  lemma IndicesStep(pkg: string, head: seq<Stmt>, mid: seq<Stmt>, rest: seq<Stmt>, a: nat, b: nat, c: nat)
    requires a <= b <= c && NoCounters(pkg, mid)
    requires CounterIndices(pkg, head) == Slots(a, b) && CounterIndices(pkg, rest) == Slots(b, c)
    ensures CounterIndices(pkg, head + mid + rest) == Slots(a, c)
  {
    NoCountersIndices(pkg, mid);
    CounterIndicesAppend(pkg, head, mid);
    CounterIndicesAppend(pkg, head + mid, rest);
    SlotsAppend(a, b, c);
  }

  /**
   What `addCounters` inserts is counters only: deleting them gives back the
   input's own statements; the block list only grows, by one block per
   inserted counter, the `k`-th counter incrementing slot `k`; every new block
   covers a non-empty span of at most the whole list, except the single
   zero-statement block of an empty list.
   */
  lemma AddCountersSpec(pkg: string, bs: seq<BasicBlock>, pos: Pos, blockEnd: Pos, list: seq<Stmt>, extend: bool)
    ensures var r := AddCounters(pkg, bs, pos, blockEnd, list, extend);
      Strip(pkg, r.0) == Strip(pkg, list)
      && |bs| <= |r.1| && r.1[..|bs|] == bs
      && (NoCounters(pkg, list) ==> Strip(pkg, r.0) == list && CounterIndices(pkg, r.0) == Slots(|bs|, |r.1|))
      && (|list| > 0 ==> forall k :: |bs| <= k < |r.1| ==> r.1[k].start != r.1[k].end && 1 <= r.1[k].numStmt <= |list|)
  {
    if |list| == 0 {
      HeadFacts(pkg, |bs|);
    } else {
      ChunksStrip(pkg, bs, pos, blockEnd, list, extend);
      if NoCounters(pkg, list) {
        ChunksIndices(pkg, bs, pos, blockEnd, list, extend);
        NoCountersIndices(pkg, list);
      }
    }
  }

  /** An empty list gets exactly one counter, spanning the whole block and covering no statement. */
  lemma AddCountersEmpty(pkg: string, bs: seq<BasicBlock>, pos: Pos, blockEnd: Pos, extend: bool)
    ensures AddCounters(pkg, bs, pos, blockEnd, [], extend) == ([CounterStmt(pkg, |bs|)], bs + [BasicBlock(pos, blockEnd, 0)])
  {
  }

  /**
   A list in which no statement ends a basic block is one basic block: with
   `extend` its counter reaches the closing brace, without it the counter stops
   at the last statement's boundary; either way it counts every statement.
   */
  lemma AddCountersOneBlock(pkg: string, bs: seq<BasicBlock>, pos: Pos, blockEnd: Pos, list: seq<Stmt>, extend: bool)
    requires |list| > 0
    requires forall i :: 0 <= i < |list| ==> !EndsBasicSourceBlock(list[i])
    ensures var end := if extend then blockEnd else StatementBoundary(list[|list| - 1]);
      AddCounters(pkg, bs, pos, blockEnd, list, extend)
        == if pos != end then ([CounterStmt(pkg, |bs|)] + list, bs + [BasicBlock(pos, end, |list|)]) else (list, bs)
  {
    var last := ChunkLen(list);
    assert last == |list|;
    assert [] + list == list;
  }

  /**
   A statement that ends a basic block closes the first chunk right after it,
   at its own boundary, with one statement counted per statement of the
   chunk; the rest of the list is then handled the same way from the next
   statement's position, with `extend` off for good.
   */
  lemma AddCountersBreaks(pkg: string, bs: seq<BasicBlock>, pos: Pos, blockEnd: Pos, list: seq<Stmt>, extend: bool, j: nat)
    requires j < |list| && EndsBasicSourceBlock(list[j])
    requires forall i :: 0 <= i < j ==> !EndsBasicSourceBlock(list[i])
    ensures var r := AddCounters(pkg, bs, pos, blockEnd, list, extend);
      var end := StatementBoundary(list[j]);
      var head := if pos != end then [CounterStmt(pkg, |bs|)] else [];
      var bs1 := Grow(bs, pos, end, j + 1);
      (j + 1 == |list| ==> r == (head + list, bs1))
      && (j + 1 < |list| ==>
            var t := AddCounters(pkg, bs1, StmtPos(list[j + 1]), blockEnd, list[j + 1..], false);
            r == (head + list[..j + 1] + t.0, t.1))
    ensures var r := AddCounters(pkg, bs, pos, blockEnd, list, extend);
      pos != StatementBoundary(list[j]) ==>
        r.0[..j + 2] == [CounterStmt(pkg, |bs|)] + list[..j + 1]
        && |bs| < |r.1| && r.1[|bs|] == BasicBlock(pos, StatementBoundary(list[j]), j + 1)
  {
    var last := ChunkLen(list);
    assert last == j + 1;
    var r := AddCounters(pkg, bs, pos, blockEnd, list, extend);
    var end := StatementBoundary(list[j]);
    var bs1 := Grow(bs, pos, end, j + 1);
    if last < |list| {
      var rest := Chunks(pkg, bs1, StmtPos(list[last]), blockEnd, list[last..], false);
      assert r.0 == (if pos != end then [CounterStmt(pkg, |bs|)] else []) + list[..last] + rest.0;
      if pos != end {
        assert rest.1[..|bs1|] == bs1;
        assert r.1[|bs|] == rest.1[..|bs1|][|bs|];
      }
    } else {
      assert list[..j + 1] == list;
    }
  }
}

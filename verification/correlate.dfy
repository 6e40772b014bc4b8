/**
 The correlator of parse.go: a sweep that walks a file's extents in order
 against the blocks of its coverage profile with a shared cursor, and marks
 an extent reached when the first block that decides it overlaps it and ran.
 */
module Correlate {
  import opened Ast
  import opened Extents
  import opened ExtentOrder

  /** One block of a `cover.Profile`. */
  datatype ProfileBlock = ProfileBlock(start: LineCol, end: LineCol, numStmt: nat, count: nat)

  /** The block starts at or after the end of the extent. */
  predicate PastEnd(e: Extent, b: ProfileBlock) {
    LessEq(e.end, b.start)
  }

  /** The block ends at or before the start of the extent. */
  predicate BeforeStart(e: Extent, b: ProfileBlock) {
    LessEq(b.end, e.start)
  }

  /** A block on which the inner loop of the sweep breaks for this extent. */
  predicate Decides(e: Extent, b: ProfileBlock) {
    PastEnd(e, b) || !BeforeStart(e, b)
  }

  /** The index at which the inner loop breaks, or None when it runs out of blocks. */
  function FirstDecider(e: Extent, bs: seq<ProfileBlock>): (r: Option<nat>)
    ensures r.Some? ==> r.value < |bs| && Decides(e, bs[r.value])
    ensures r.Some? ==> forall k :: 0 <= k < r.value ==> !Decides(e, bs[k])
    ensures r.None? ==> forall k :: 0 <= k < |bs| ==> !Decides(e, bs[k])
  {
    if |bs| == 0 then None
    else if Decides(e, bs[0]) then Some(0)
    else match FirstDecider(e, bs[1..])
      case None => None
      case Some(i) => Some(i + 1)
  }

  /**
   The outer loop over extents. `None` stands for the source's loop never
   ending: when no block decides the current extent, the extent list is not
   advanced and the same extent is tried again forever.
   */
  function Sweep(es: seq<Extent>, bs: seq<ProfileBlock>, acc: set<NodeId>): (r: Option<set<NodeId>>)
    ensures r.Some? ==> acc <= r.value
    ensures r.Some? ==> forall k :: k in r.value && k !in acc ==> exists i :: 0 <= i < |es| && es[i].key == k
    decreases |es|
  {
    if |es| == 0 then Some(acc)
    else
      var d := FirstDecider(es[0], bs);
      if d.None? then None
      else if PastEnd(es[0], bs[d.value]) then Sweep(es[1..], bs[d.value..], acc)
      else Sweep(es[1..], bs, if bs[d.value].count > 0 then acc + {es[0].key} else acc)
  }

  /* ---------------- a stateless reference ---------------- */

  /** Whether an extent is marked when it is tried against the whole block list on its own. */
  predicate Marked(e: Extent, bs: seq<ProfileBlock>) {
    var d := FirstDecider(e, bs);
    d.Some? && !PastEnd(e, bs[d.value]) && bs[d.value].count > 0
  }

  function MarkedKeys(es: seq<Extent>, bs: seq<ProfileBlock>): set<NodeId> {
    set i | 0 <= i < |es| && Marked(es[i], bs) :: es[i].key
  }

  predicate AllDecided(es: seq<Extent>, bs: seq<ProfileBlock>) {
    forall i :: 0 <= i < |es| ==> FirstDecider(es[i], bs).Some?
  }

  /** Extents that do not end before they start. */
  predicate ExtentsOk(es: seq<Extent>) {
    forall i :: 0 <= i < |es| ==> LessEq(es[i].start, es[i].end)
  }

  /** Blocks that end strictly after they start. */
  predicate BlocksOk(bs: seq<ProfileBlock>) {
    forall k :: 0 <= k < |bs| ==> Less(bs[k].start, bs[k].end)
  }

  lemma MarkedKeysCons(es: seq<Extent>, bs: seq<ProfileBlock>)
    requires |es| > 0
    ensures MarkedKeys(es, bs) == (if Marked(es[0], bs) then {es[0].key} else {}) + MarkedKeys(es[1..], bs)
  {
    var rest := MarkedKeys(es[1..], bs);
    forall k | k in MarkedKeys(es, bs)
      ensures k in (if Marked(es[0], bs) then {es[0].key} else {}) + rest
    {
      var i :| 0 <= i < |es| && Marked(es[i], bs) && es[i].key == k;
      if i > 0 {
        assert es[1..][i - 1] == es[i];
      }
    }
    forall k | k in rest ensures k in MarkedKeys(es, bs) {
      var i :| 0 <= i < |es[1..]| && Marked(es[1..][i], bs) && es[1..][i].key == k;
      assert es[i + 1] == es[1..][i];
    }
  }

  /** Skipping blocks that lie wholly before the extent does not move its decider. */
  lemma {:induction false} DeciderShift(e: Extent, bs: seq<ProfileBlock>, c: nat)
    requires c <= |bs|
    requires forall k :: 0 <= k < c ==> !Decides(e, bs[k])
    ensures FirstDecider(e, bs).Some? <==> FirstDecider(e, bs[c..]).Some?
    ensures FirstDecider(e, bs).Some? ==> FirstDecider(e, bs).value == c + FirstDecider(e, bs[c..]).value
    decreases c
  {
    if c == 0 {
      assert bs[0..] == bs;
    } else {
      assert !Decides(e, bs[0]);
      assert bs[1..][c - 1..] == bs[c..];
      DeciderShift(e, bs[1..], c - 1);
    }
  }

  lemma TailSorted(es: seq<Extent>)
    requires |es| > 0 && SortedByStart(es) && ExtentsOk(es)
    ensures SortedByStart(es[1..]) && ExtentsOk(es[1..])
    ensures forall i :: 0 <= i < |es[1..]| ==> LessEq(es[0].start, es[1..][i].start)
  {
    forall i | 0 <= i < |es[1..]| ensures LessEq(es[0].start, es[1..][i].start) {
      assert es[1..][i] == es[i + 1];
    }
  }

  lemma AllDecidedCons(es: seq<Extent>, bs: seq<ProfileBlock>)
    requires |es| > 0
    ensures AllDecided(es, bs) <==> FirstDecider(es[0], bs).Some? && AllDecided(es[1..], bs)
  {
    if FirstDecider(es[0], bs).Some? && AllDecided(es[1..], bs) {
      forall i | 0 <= i < |es| ensures FirstDecider(es[i], bs).Some? {
        if i > 0 {
          assert es[i] == es[1..][i - 1];
        }
      }
    }
  }

  /** Blocks before the cursor that ended before the current extent started end before every later extent starts. */
  lemma CursorStaysBehind(es: seq<Extent>, bs: seq<ProfileBlock>, j: nat)
    requires |es| > 0 && j <= |bs| && SortedByStart(es) && ExtentsOk(es)
    requires forall k :: 0 <= k < j ==> BeforeStart(es[0], bs[k])
    ensures forall k, i :: 0 <= k < j && 0 <= i < |es[1..]| ==> BeforeStart(es[1..][i], bs[k])
  {
    TailSorted(es);
  }

  /** No block behind the cursor decides a later extent. */
  lemma BehindDecidesNothing(e: Extent, bs: seq<ProfileBlock>, c: nat)
    requires c <= |bs| && LessEq(e.start, e.end) && BlocksOk(bs)
    requires forall k :: 0 <= k < c ==> BeforeStart(e, bs[k])
    ensures forall k :: 0 <= k < c ==> !Decides(e, bs[k])
  {
  }

  /** What the sweep should compute: the stateless reference, when every extent is decided. */
  function Reference(es: seq<Extent>, bs: seq<ProfileBlock>, acc: set<NodeId>): Option<set<NodeId>> {
    if AllDecided(es, bs) then Some(acc + MarkedKeys(es, bs)) else None
  }

  lemma ReferenceCons(es: seq<Extent>, bs: seq<ProfileBlock>, acc: set<NodeId>)
    requires |es| > 0
    ensures FirstDecider(es[0], bs).None? ==> Reference(es, bs, acc).None?
    ensures FirstDecider(es[0], bs).Some? ==>
      Reference(es, bs, acc) == Reference(es[1..], bs, if Marked(es[0], bs) then acc + {es[0].key} else acc)
  {
    MarkedKeysCons(es, bs);
    AllDecidedCons(es, bs);
    var mark: set<NodeId> := if Marked(es[0], bs) then {es[0].key} else {};
    assert (acc + mark) + MarkedKeys(es[1..], bs) == acc + MarkedKeys(es, bs);
    assert (if Marked(es[0], bs) then acc + {es[0].key} else acc) == acc + mark;
  }

  /**
   The sweep with its cursor at block `c`, where every block before the cursor
   ends at or before every remaining extent starts, computes the stateless
   reference: it ends exactly when every extent has a deciding block, and then
   adds exactly the marked extents to `acc`.
   */
  lemma {:induction false} SweepFrom(es: seq<Extent>, bs: seq<ProfileBlock>, c: nat, acc: set<NodeId>)
    requires c <= |bs|
    requires SortedByStart(es) && ExtentsOk(es) && BlocksOk(bs)
    requires forall k, i :: 0 <= k < c && 0 <= i < |es| ==> BeforeStart(es[i], bs[k])
    ensures Sweep(es, bs[c..], acc) == Reference(es, bs, acc)
    decreases |es|
  {
    if |es| == 0 {
      assert MarkedKeys(es, bs) == {};
      assert AllDecided(es, bs);
      assert acc + {} == acc;
    } else {
      var e := es[0];
      BehindDecidesNothing(e, bs, c);
      DeciderShift(e, bs, c);
      ReferenceCons(es, bs, acc);
      TailSorted(es);
      var d := FirstDecider(e, bs[c..]);
      if d.Some? {
        var j := c + d.value;
        assert bs[c..][d.value] == bs[j];
        assert Marked(e, bs) <==> !PastEnd(e, bs[j]) && bs[j].count > 0;
        if PastEnd(e, bs[j]) {
          assert bs[c..][d.value..] == bs[j..];
          CursorStaysBehind(es, bs, j);
          SweepFrom(es[1..], bs, j, acc);
        } else {
          CursorStaysBehind(es, bs, c);
          SweepFrom(es[1..], bs, c, if bs[j].count > 0 then acc + {e.key} else acc);
        }
      }
    }
  }

  /** The correlator on a sorted extent list computes the stateless reference. */
  lemma SweepIsMarked(es: seq<Extent>, bs: seq<ProfileBlock>, acc: set<NodeId>)
    requires SortedByStart(es) && ExtentsOk(es) && BlocksOk(bs)
    ensures Sweep(es, bs, acc) == if AllDecided(es, bs) then Some(acc + MarkedKeys(es, bs)) else None
  {
    assert bs[0..] == bs;
    SweepFrom(es, bs, 0, acc);
  }

  /** The source's loop spins forever on an extent exactly when every block ends at or before the extent starts. */
  lemma HangsIffAllBlocksBefore(e: Extent, bs: seq<ProfileBlock>)
    requires LessEq(e.start, e.end) && BlocksOk(bs)
    ensures FirstDecider(e, bs).None? <==> forall k :: 0 <= k < |bs| ==> BeforeStart(e, bs[k])
  {
  }

  /** A sweep only ever adds keys: whatever was marked before stays marked. */
  lemma {:induction false} SweepGrows(es: seq<Extent>, bs: seq<ProfileBlock>, acc: set<NodeId>)
    ensures Sweep(es, bs, acc).Some? ==> acc <= Sweep(es, bs, acc).value
    decreases |es|
  {
    if |es| > 0 {
      var d := FirstDecider(es[0], bs);
      if d.Some? {
        if PastEnd(es[0], bs[d.value]) {
          SweepGrows(es[1..], bs[d.value..], acc);
        } else {
          SweepGrows(es[1..], bs, if bs[d.value].count > 0 then acc + {es[0].key} else acc);
        }
      }
    }
  }

  /** A marked extent overlaps a block that ran. */
  lemma MarkedOverlaps(e: Extent, bs: seq<ProfileBlock>)
    requires Marked(e, bs)
    ensures exists k :: 0 <= k < |bs| && !BeforeStart(e, bs[k]) && !PastEnd(e, bs[k]) && bs[k].count > 0
  {
    var k := FirstDecider(e, bs).value;
    assert !BeforeStart(e, bs[k]) && !PastEnd(e, bs[k]) && bs[k].count > 0;
  }

  /* ---------------- ParseProfile ---------------- */

  /** A coverage profile of one file, with the file already located and parsed. */
  datatype FileProfile = FileProfile(file: File, blocks: seq<ProfileBlock>)

  /** The reached statements and functions, and the parsed files in profile order. */
  datatype Profile = Profile(stmts: set<NodeId>, funcs: set<NodeId>, files: seq<File>)

  /**
   Runs the function sweep and then the statement sweep, each from the first
   block, file by file. `None` stands for a sweep that never ends.
   */
  function ParseProfile(profs: seq<FileProfile>, at: Pos -> LineCol): Option<Profile> {
    ParseFrom(profs, at, Profile({}, {}, []))
  }

  function ParseFrom(profs: seq<FileProfile>, at: Pos -> LineCol, p: Profile): Option<Profile>
    decreases |profs|
  {
    if |profs| == 0 then Some(p)
    else
      var f := profs[0].file;
      var funcs := Sweep(FuncExtents(f, at), profs[0].blocks, p.funcs);
      var stmts := Sweep(StmtExtents(f, at), profs[0].blocks, p.stmts);
      if funcs.None? || stmts.None? then None
      else ParseFrom(profs[1..], at, Profile(stmts.value, funcs.value, p.files + [f]))
  }

  /**
   What one file's profile needs for the correlation to end: a parsed file
   laid out in source order, an order-preserving position map, blocks that
   end after they start, and a deciding block for every extent.
   */
  ghost predicate Correlatable(fp: FileProfile, at: Pos -> LineCol) {
    Monotone(at) && LaidOut(fp.file) && BlocksOk(fp.blocks)
    && AllDecided(FuncExtents(fp.file, at), fp.blocks) && AllDecided(StmtExtents(fp.file, at), fp.blocks)
  }

  /** The extent lists of a laid-out file are in the order the sweeps need. */
  lemma ExtentsInOrder(f: File, at: Pos -> LineCol)
    requires Monotone(at) && LaidOut(f)
    ensures var fs, ss := FuncExtents(f, at), StmtExtents(f, at);
      SortedByStart(fs) && ExtentsOk(fs) && SortedByStart(ss) && ExtentsOk(ss)
  {
    FuncExtentsOrdered(f, at);
    StmtExtentsOrdered(f, at);
  }

  function ReachedStmts(profs: seq<FileProfile>, at: Pos -> LineCol): set<NodeId> {
    if |profs| == 0 then {} else MarkedKeys(StmtExtents(profs[0].file, at), profs[0].blocks) + ReachedStmts(profs[1..], at)
  }

  function ReachedFuncs(profs: seq<FileProfile>, at: Pos -> LineCol): set<NodeId> {
    if |profs| == 0 then {} else MarkedKeys(FuncExtents(profs[0].file, at), profs[0].blocks) + ReachedFuncs(profs[1..], at)
  }

  function Files(profs: seq<FileProfile>): (r: seq<File>)
    ensures |r| == |profs| && forall i :: 0 <= i < |profs| ==> r[i] == profs[i].file
  {
    if |profs| == 0 then [] else [profs[0].file] + Files(profs[1..])
  }

  lemma ParseFromStep(profs: seq<FileProfile>, at: Pos -> LineCol, p: Profile)
    requires |profs| > 0 && Correlatable(profs[0], at)
    ensures ParseFrom(profs, at, p) == ParseFrom(profs[1..], at, Profile(
      p.stmts + MarkedKeys(StmtExtents(profs[0].file, at), profs[0].blocks),
      p.funcs + MarkedKeys(FuncExtents(profs[0].file, at), profs[0].blocks),
      p.files + [profs[0].file]))
  {
    var fp := profs[0];
    ExtentsInOrder(fp.file, at);
    SweepIsMarked(FuncExtents(fp.file, at), fp.blocks, p.funcs);
    SweepIsMarked(StmtExtents(fp.file, at), fp.blocks, p.stmts);
  }

  lemma {:induction false} ParseFromMarks(profs: seq<FileProfile>, at: Pos -> LineCol, p: Profile)
    requires forall i :: 0 <= i < |profs| ==> Correlatable(profs[i], at)
    ensures ParseFrom(profs, at, p)
      == Some(Profile(p.stmts + ReachedStmts(profs, at), p.funcs + ReachedFuncs(profs, at), p.files + Files(profs)))
    decreases |profs|
  {
    if |profs| > 0 {
      var fp := profs[0];
      ParseFromStep(profs, at, p);
      var p' := Profile(p.stmts + MarkedKeys(StmtExtents(fp.file, at), fp.blocks),
                        p.funcs + MarkedKeys(FuncExtents(fp.file, at), fp.blocks), p.files + [fp.file]);
      forall i | 0 <= i < |profs[1..]| ensures Correlatable(profs[1..][i], at) {
        assert profs[1..][i] == profs[i + 1];
      }
      ParseFromMarks(profs[1..], at, p');
      assert p.files + [fp.file] + Files(profs[1..]) == p.files + Files(profs);
      assert p'.stmts + ReachedStmts(profs[1..], at) == p.stmts + ReachedStmts(profs, at);
      assert p'.funcs + ReachedFuncs(profs[1..], at) == p.funcs + ReachedFuncs(profs, at);
      assert ParseFrom(profs[1..], at, p') == ParseFrom(profs, at, p);
    } else {
      assert p.files + Files(profs) == p.files;
      assert p.stmts + ReachedStmts(profs, at) == p.stmts;
      assert p.funcs + ReachedFuncs(profs, at) == p.funcs;
    }
  }

  /**
   When every file's profile can be correlated, parsing ends and reports the
   union over files of the marked statements and functions, with the files in
   profile order.
   */
  lemma ParseProfileMarks(profs: seq<FileProfile>, at: Pos -> LineCol)
    requires forall i :: 0 <= i < |profs| ==> Correlatable(profs[i], at)
    ensures ParseProfile(profs, at) == Some(Profile(ReachedStmts(profs, at), ReachedFuncs(profs, at), Files(profs)))
  {
    ParseFromMarks(profs, at, Profile({}, {}, []));
    assert [] + Files(profs) == Files(profs);
    assert {} + ReachedStmts(profs, at) == ReachedStmts(profs, at);
    assert {} + ReachedFuncs(profs, at) == ReachedFuncs(profs, at);
  }

  /** A file whose sweep never ends makes the whole parse never end. */
  lemma {:induction false} ParseHangs(profs: seq<FileProfile>, at: Pos -> LineCol, p: Profile, i: nat)
    requires i < |profs|
    requires forall j :: 0 <= j < i ==> Correlatable(profs[j], at)
    requires Sweep(StmtExtents(profs[i].file, at), profs[i].blocks, {}).None?
    requires Monotone(at) && LaidOut(profs[i].file) && BlocksOk(profs[i].blocks)
    ensures ParseFrom(profs, at, p).None?
    decreases i
  {
    var fp := profs[0];
    if i == 0 {
      ExtentsInOrder(fp.file, at);
      SweepIsMarked(StmtExtents(fp.file, at), fp.blocks, {});
      SweepIsMarked(StmtExtents(fp.file, at), fp.blocks, p.stmts);
    } else {
      ParseFromStep(profs, at, p);
      var p' := Profile(p.stmts + MarkedKeys(StmtExtents(fp.file, at), fp.blocks),
                        p.funcs + MarkedKeys(FuncExtents(fp.file, at), fp.blocks), p.files + [fp.file]);
      forall j | 0 <= j < i - 1 ensures Correlatable(profs[1..][j], at) {
        assert profs[1..][j] == profs[j + 1];
      }
      assert profs[1..][i - 1] == profs[i];
      ParseHangs(profs[1..], at, p', i - 1);
    }
  }
}

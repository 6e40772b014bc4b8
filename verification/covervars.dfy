/**
 `addVariables` of build/cover.go: the self-check that the recorded basic
 blocks are disjoint, and the tables it writes after the file, namely the
 position triples with packed columns and the clamped statement counts. The
 text layout the source prints is not modelled, only the values it prints.
 */
module CoverVars {
  import opened Ast
  import opened Extents
  import opened Cover

  /* ---------------- the self-check ---------------- */

  /**
   `perm` lists block indices in the order `sort.Sort` leaves `blockSlice`:
   every index exactly once, with starts non-decreasing. The sort is not
   stable, so any such order may come out.
   */
  predicate SortedPerm(bs: seq<BasicBlock>, perm: seq<nat>) {
    |perm| == |bs|
    && (forall i :: 0 <= i < |perm| ==> perm[i] < |bs|)
    && (forall i, j :: 0 <= i < j < |perm| ==> perm[i] != perm[j])
    && (forall k :: 0 <= k < |bs| ==> k in perm)
    && (forall i :: 1 <= i < |perm| ==> bs[perm[i - 1]].start <= bs[perm[i]].start)
  }

  /** Whether the block sorted just before position `i` ends after the one at `i` starts. */
  predicate OverlapsNext(bs: seq<BasicBlock>, perm: seq<nat>, i: nat)
    requires SortedPerm(bs, perm) && 1 <= i < |perm|
  {
    bs[perm[i - 1]].end > bs[perm[i]].start
  }

  /** The pairs of block indices reported as overlapping, for sorted positions `i` onwards. */
  function Reports(bs: seq<BasicBlock>, perm: seq<nat>, i: nat): seq<(nat, nat)>
    requires SortedPerm(bs, perm) && 1 <= i
    decreases |perm| - i
  {
    if i >= |perm| then []
    else (if OverlapsNext(bs, perm, i) then [(perm[i - 1], perm[i])] else []) + Reports(bs, perm, i + 1)
  }

  /** The loop over the sorted blocks, reporting each adjacent pair that overlaps, in sorted order. */
  method SelfCheck(bs: seq<BasicBlock>, perm: seq<nat>) returns (report: seq<(nat, nat)>)
    requires SortedPerm(bs, perm)
    ensures report == Reports(bs, perm, 1)
  {
    report := [];
    var i := 1;
    while i < |perm|
      invariant 1 <= i
      invariant report + Reports(bs, perm, i) == Reports(bs, perm, 1)
      decreases |perm| - i
    {
      if bs[perm[i - 1]].end > bs[perm[i]].start {
        report := report + [(perm[i - 1], perm[i])];
      }
      i := i + 1;
    }
  }

  predicate NonEmptyBlocks(bs: seq<BasicBlock>) {
    forall i :: 0 <= i < |bs| ==> bs[i].start < bs[i].end
  }

  /** No two distinct blocks share a position. */
  predicate Disjoint(bs: seq<BasicBlock>) {
    forall i, j :: 0 <= i < |bs| && 0 <= j < |bs| && i != j ==> bs[i].end <= bs[j].start || bs[j].end <= bs[i].start
  }

  lemma {:induction false} ReportsEmpty(bs: seq<BasicBlock>, perm: seq<nat>, i: nat)
    requires SortedPerm(bs, perm) && 1 <= i
    ensures Reports(bs, perm, i) == [] <==> forall j :: i <= j < |perm| ==> !OverlapsNext(bs, perm, j)
    decreases |perm| - i
  {
    if i < |perm| {
      ReportsEmpty(bs, perm, i + 1);
    }
  }

  /** With no adjacent overlap, every block ends before any block sorted after it starts. */
  lemma {:induction false} Chain(bs: seq<BasicBlock>, perm: seq<nat>, i: nat, j: nat)
    requires SortedPerm(bs, perm) && NonEmptyBlocks(bs)
    requires forall k :: 1 <= k < |perm| ==> !OverlapsNext(bs, perm, k)
    requires i < j < |perm|
    ensures bs[perm[i]].end <= bs[perm[j]].start
    decreases j - i
  {
    if i + 1 < j {
      Chain(bs, perm, i, j - 1);
      assert !OverlapsNext(bs, perm, j);
    } else {
      assert !OverlapsNext(bs, perm, j);
    }
  }

  /**
   The self-check is silent exactly when the blocks are pairwise disjoint,
   whatever order the unstable sort leaves equal starts in.
   */
  lemma SelfCheckSilentIff(bs: seq<BasicBlock>, perm: seq<nat>)
    requires SortedPerm(bs, perm) && NonEmptyBlocks(bs)
    ensures Reports(bs, perm, 1) == [] <==> Disjoint(bs)
  {
    ReportsEmpty(bs, perm, 1);
    if Reports(bs, perm, 1) == [] {
      forall a, b | 0 <= a < |bs| && 0 <= b < |bs| && a != b
        ensures bs[a].end <= bs[b].start || bs[b].end <= bs[a].start
      {
        assert a in perm && b in perm;
        var i :| 0 <= i < |perm| && perm[i] == a;
        var j :| 0 <= j < |perm| && perm[j] == b;
        if i < j {
          Chain(bs, perm, i, j);
        } else {
          Chain(bs, perm, j, i);
        }
      }
    }
    if Disjoint(bs) {
      forall j | 1 <= j < |perm| ensures !OverlapsNext(bs, perm, j) {
        assert perm[j - 1] != perm[j];
      }
    }
  }

  /* ---------------- the position table ---------------- */

  const ColumnMask: int := 0x1_0000

  /**
   The third word of a position triple: `(end.Column & 0xFFFF) << 16 |
   (start.Column & 0xFFFF)`. On Go's two's-complement ints, masking with
   0xFFFF is the Euclidean remainder modulo 2^16.
   */
  function PackColumns(startCol: int, endCol: int): (r: int)
    ensures 0 <= r < 0x1_0000_0000
  {
    (endCol % ColumnMask) * ColumnMask + startCol % ColumnMask
  }

  /** How a reader of the table splits the third word back into (start column, end column). */
  function UnpackColumns(w: int): (int, int) {
    (w % ColumnMask, w / ColumnMask)
  }

  /** Columns that fit in 16 bits survive the packing; wider ones keep only their low 16 bits. */
  lemma PackRoundTrip(startCol: int, endCol: int)
    ensures UnpackColumns(PackColumns(startCol, endCol)) == (startCol % ColumnMask, endCol % ColumnMask)
    ensures 0 <= startCol < ColumnMask && 0 <= endCol < ColumnMask ==>
      UnpackColumns(PackColumns(startCol, endCol)) == (startCol, endCol)
  {
  }

  /** The triple written for one block: start line, end line, packed columns. */
  function PosTriple(b: BasicBlock, at: Pos -> LineCol): seq<int> {
    [at(b.start).line, at(b.end).line, PackColumns(at(b.start).col, at(b.end).col)]
  }

  /** The `Pos` table: three words per block, in recording order. */
  function PosTable(bs: seq<BasicBlock>, at: Pos -> LineCol): (r: seq<int>)
    ensures |r| == 3 * |bs|
  {
    if |bs| == 0 then [] else PosTriple(bs[0], at) + PosTable(bs[1..], at)
  }

  /** Entry `i` of the table occupies words `3i`, `3i+1` and `3i+2`. */
  lemma {:induction false} PosTableEntry(bs: seq<BasicBlock>, at: Pos -> LineCol, i: nat)
    requires i < |bs|
    ensures PosTable(bs, at)[3 * i..3 * i + 3] == PosTriple(bs[i], at)
  {
    if i > 0 {
      PosTableEntry(bs[1..], at, i - 1);
      assert PosTable(bs, at)[3 * i..3 * i + 3] == PosTable(bs[1..], at)[3 * (i - 1)..3 * (i - 1) + 3];
    }
  }

  lemma Triple<T>(s: seq<T>, lo: nat)
    requires lo + 3 <= |s|
    ensures s[lo..lo + 3] == [s[lo], s[lo + 1], s[lo + 2]]
  {
  }

  /** Reading block `i` back from the table gives its lines, and its columns when they fit in 16 bits. */
  lemma PosTableDecodes(bs: seq<BasicBlock>, at: Pos -> LineCol, i: nat)
    requires i < |bs|
    requires 0 <= at(bs[i].start).col < ColumnMask && 0 <= at(bs[i].end).col < ColumnMask
    ensures var t, j := PosTable(bs, at), 3 * i;
      t[j] == at(bs[i].start).line && t[j + 1] == at(bs[i].end).line
      && UnpackColumns(t[j + 2]) == (at(bs[i].start).col, at(bs[i].end).col)
  {
    PosTableEntry(bs, at, i);
    Triple(PosTable(bs, at), 3 * i);
    PackRoundTrip(at(bs[i].start).col, at(bs[i].end).col);
  }

  /* ---------------- the statement counts ---------------- */

  const MaxNumStmt: nat := 0xFFFF

  /** A statement count as stored in a `uint16`: counts that do not fit are clamped to the largest value. */
  function ClampNumStmt(n: nat): (r: nat)
    ensures r <= MaxNumStmt
    ensures r == n <==> n <= MaxNumStmt
  {
    if n > MaxNumStmt then MaxNumStmt else n
  }

  /** Clamping never reorders counts and never raises one. */
  lemma ClampMonotone(m: nat, n: nat)
    requires m <= n
    ensures ClampNumStmt(m) <= ClampNumStmt(n) && ClampNumStmt(n) <= n
  {
  }

  function NumStmtTable(bs: seq<BasicBlock>): (r: seq<nat>)
    ensures |r| == |bs|
    ensures forall i :: 0 <= i < |bs| ==> r[i] == ClampNumStmt(bs[i].numStmt)
  {
    seq(|bs|, i requires 0 <= i < |bs| => ClampNumStmt(bs[i].numStmt))
  }

  /** The values `addVariables` declares: the number of counters, the positions, the statement counts. */
  datatype CoverTables = CoverTables(count: nat, pos: seq<int>, numStmt: seq<nat>)

  function Tables(bs: seq<BasicBlock>, at: Pos -> LineCol): (r: CoverTables)
    ensures r.count == |bs| && |r.pos| == 3 * r.count && |r.numStmt| == r.count
  {
    CoverTables(|bs|, PosTable(bs, at), NumStmtTable(bs))
  }
}

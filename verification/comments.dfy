/**
 The two comment helpers of build/comments.go. `trimComments` keeps only
 the `//go:` directives that start their line, since any other comment may
 end up next to an inserted counter. `initialComments` finds the leading
 part of a source file made of blank and `//` lines, which is where
 `+build` constraints live, so that it can be copied ahead of the printed
 file.
 */
module Comments {
  import opened Ast
  import opened Extents
  import opened Strings

  /* ---------------- trimComments ---------------- */

  const DirectivePrefix: string := "//go:"

  /** A `//go:` comment whose slashes sit in column 1. */
  predicate IsDirective(c: Comment, at: Pos -> LineCol) {
    HasPrefix(c.text, DirectivePrefix) && at(c.slash).col == 1
  }

  /** The directives of a comment list, in their order. */
  function Directives(list: seq<Comment>, at: Pos -> LineCol): (r: seq<Comment>)
    ensures |r| <= |list|
  {
    if |list| == 0 then [] else (if IsDirective(list[0], at) then [list[0]] else []) + Directives(list[1..], at)
  }

  /** A comment is kept exactly when it is a directive. */
  lemma {:induction false} DirectivesMembers(list: seq<Comment>, at: Pos -> LineCol, c: Comment)
    ensures c in Directives(list, at) <==> c in list && IsDirective(c, at)
  {
    if |list| > 0 {
      DirectivesMembers(list[1..], at, c);
      assert c in list <==> c == list[0] || c in list[1..];
    }
  }

  /** Each group reduced to its directives; a group left with none is dropped. */
  function TrimGroups(groups: seq<CommentGroup>, at: Pos -> LineCol): (r: seq<CommentGroup>)
    ensures |r| <= |groups|
    ensures forall i :: 0 <= i < |r| ==> |r[i].list| > 0
  {
    if |groups| == 0 then []
    else
      var kept := Directives(groups[0].list, at);
      (if |kept| > 0 then [CommentGroup(kept)] else []) + TrimGroups(groups[1..], at)
  }

  /** All comments of a file, group after group. */
  function Flatten(groups: seq<CommentGroup>): seq<Comment> {
    if |groups| == 0 then [] else groups[0].list + Flatten(groups[1..])
  }

  lemma {:induction false} DirectivesAppend(a: seq<Comment>, b: seq<Comment>, at: Pos -> LineCol)
    ensures Directives(a + b, at) == Directives(a, at) + Directives(b, at)
  {
    if |a| == 0 {
      assert a + b == b;
    } else {
      var h := if IsDirective(a[0], at) then [a[0]] else [];
      assert (a + b)[0] == a[0];
      assert (a + b)[1..] == a[1..] + b;
      calc {
        Directives(a + b, at);
        h + Directives(a[1..] + b, at);
        { DirectivesAppend(a[1..], b, at); }
        h + (Directives(a[1..], at) + Directives(b, at));
        (h + Directives(a[1..], at)) + Directives(b, at);
        Directives(a, at) + Directives(b, at);
      }
    }
  }

  /**
   Across the whole file, the kept comments are exactly the directives, in
   their original order; group boundaries only decide which groups vanish.
   */
  lemma {:induction false} TrimGroupsFlatten(groups: seq<CommentGroup>, at: Pos -> LineCol)
    ensures Flatten(TrimGroups(groups, at)) == Directives(Flatten(groups), at)
  {
    if |groups| > 0 {
      TrimGroupsFlatten(groups[1..], at);
      DirectivesAppend(groups[0].list, Flatten(groups[1..]), at);
      var kept := Directives(groups[0].list, at);
      var rest := TrimGroups(groups[1..], at);
      if |kept| > 0 {
        assert ([CommentGroup(kept)] + rest)[1..] == rest;
      } else {
        assert [] + rest == rest;
      }
    }
  }

  /** The inner loop of `trimComments`, over the comments of one group. */
  method KeepDirectives(g: seq<Comment>, at: Pos -> LineCol) returns (list: seq<Comment>)
    ensures list == Directives(g, at)
  {
    list := [];
    var j := 0;
    while j < |g|
      invariant 0 <= j <= |g|
      invariant list + Directives(g[j..], at) == Directives(g, at)
    {
      assert g[j..][0] == g[j] && g[j..][1..] == g[j + 1..];
      if HasPrefix(g[j].text, DirectivePrefix) && at(g[j].slash).col == 1 {
        list := list + [g[j]];
      }
      j := j + 1;
    }
    assert g[|g|..] == [];
  }

  /** `trimComments`: the loop over the groups. */
  method TrimComments(groups: seq<CommentGroup>, at: Pos -> LineCol) returns (r: seq<CommentGroup>)
    ensures r == TrimGroups(groups, at)
    ensures Flatten(r) == Directives(Flatten(groups), at)
    ensures forall i :: 0 <= i < |r| ==> |r[i].list| > 0
  {
    r := [];
    var i := 0;
    while i < |groups|
      invariant 0 <= i <= |groups|
      invariant r + TrimGroups(groups[i..], at) == TrimGroups(groups, at)
    {
      var g := groups[i].list;
      assert TrimGroups(groups[i..], at) ==
        (if |Directives(g, at)| > 0 then [CommentGroup(Directives(g, at))] else []) + TrimGroups(groups[i + 1..], at) by {
        assert groups[i..][0] == groups[i];
        assert groups[i..][1..] == groups[i + 1..];
      }
      var list := KeepDirectives(g, at);
      if |list| > 0 {
        r := r + [CommentGroup(list)];
      }
      i := i + 1;
    }
    TrimGroupsFlatten(groups, at);
  }

  /* ---------------- initialComments ---------------- */

  newtype Byte = b: int | 0 <= b < 0x100

  const Newline: Byte := 10
  const SlashSlash: seq<Byte> := [47, 47]

  /** The ASCII white space `bytes.TrimSpace` removes: tab, newline, vertical tab, form feed, carriage return, space. */
  predicate IsSpace(b: Byte) {
    b == 9 || b == 10 || b == 11 || b == 12 || b == 13 || b == 32
  }

  function TrimLeft(s: seq<Byte>): (r: seq<Byte>)
    ensures |r| <= |s| && r == s[|s| - |r|..]
    ensures forall k :: 0 <= k < |s| - |r| ==> IsSpace(s[k])
    ensures |r| > 0 ==> !IsSpace(r[0])
  {
    if |s| > 0 && IsSpace(s[0]) then
      var r := TrimLeft(s[1..]);
      assert s[1..][|s[1..]| - |r|..] == s[|s| - |r|..];
      r
    else s
  }

  function TrimRight(s: seq<Byte>): (r: seq<Byte>)
    ensures |r| <= |s| && r == s[..|r|]
    ensures forall k :: |r| <= k < |s| ==> IsSpace(s[k])
    ensures |r| > 0 ==> !IsSpace(r[|r| - 1])
  {
    if |s| > 0 && IsSpace(s[|s| - 1]) then
      var r := TrimRight(s[..|s| - 1]);
      assert s[..|s| - 1][..|r|] == s[..|r|];
      r
    else s
  }

  /** `bytes.TrimSpace`, for ASCII white space. */
  function TrimSpace(s: seq<Byte>): seq<Byte> {
    TrimRight(TrimLeft(s))
  }

  /** A line trims to nothing exactly when every byte of it is white space. */
  lemma TrimSpaceEmptyIff(s: seq<Byte>)
    ensures |TrimSpace(s)| == 0 <==> forall k :: 0 <= k < |s| ==> IsSpace(s[k])
  {
  }

  /** A line counts as a comment exactly when its first byte that is not white space starts `//`. */
  lemma TrimSpaceCommentIff(s: seq<Byte>)
    ensures HasPrefix(TrimSpace(s), SlashSlash) <==> HasPrefix(TrimLeft(s), SlashSlash)
  {
    var l := TrimLeft(s);
    var t := TrimRight(l);
    if HasPrefix(l, SlashSlash) {
      assert l[1] == 47 && !IsSpace(l[1]);
      assert |t| >= 2;
      assert t[..2] == l[..2];
    }
    if HasPrefix(t, SlashSlash) {
      assert l[..2] == t[..2];
    }
  }

  /** `bytes.IndexByte`: the first index of `b` in `s`, or -1. */
  function IndexByte(s: seq<Byte>, b: Byte): (r: int)
    ensures -1 <= r < |s|
    ensures r >= 0 ==> s[r] == b && forall k :: 0 <= k < r ==> s[k] != b
    ensures r == -1 ==> forall k :: 0 <= k < |s| ==> s[k] != b
  {
    if |s| == 0 then -1
    else if s[0] == b then 0
    else
      var i := IndexByte(s[1..], b);
      if i < 0 then -1 else i + 1
  }

  /** Where the line starting at `q` ends: its newline, or the end of the content. */
  function LineEnd(c: seq<Byte>, q: nat): (r: nat)
    requires q <= |c|
    ensures q <= r <= |c|
    ensures r < |c| ==> c[r] == Newline
    ensures forall k :: q <= k < r ==> c[k] != Newline
    decreases |c| - q
  {
    if q == |c| || c[q] == Newline then q else LineEnd(c, q + 1)
  }

  /** Where the line after the one starting at `q` starts. */
  function NextLine(c: seq<Byte>, q: nat): (r: nat)
    requires q <= |c|
    ensures q < |c| ==> q < r
    ensures r <= |c|
  {
    var e := LineEnd(c, q);
    if e < |c| then e + 1 else |c|
  }

  predicate LineStart(c: seq<Byte>, q: nat) {
    q == 0 || (0 < q <= |c| && c[q - 1] == Newline)
  }

  predicate BlankLine(c: seq<Byte>, q: nat)
    requires q <= |c|
  {
    |TrimSpace(c[q..LineEnd(c, q)])| == 0
  }

  /** A line the scan passes over: blank, or a `//` comment once trimmed. */
  predicate HeaderLine(c: seq<Byte>, q: nat)
    requires q <= |c|
  {
    var line := TrimSpace(c[q..LineEnd(c, q)]);
    |line| == 0 || HasPrefix(line, SlashSlash)
  }

  /**
   The scan from line `q` with the region so far ending at `end`: a blank
   line moves the end past itself, a comment line is passed over, and any
   other line stops the scan.
   */
  function ScanFrom(c: seq<Byte>, q: nat, end: nat): (r: nat)
    requires end <= q <= |c|
    ensures end <= r <= |c|
    decreases |c| - q
  {
    if q == |c| then end
    else
      var next := NextLine(c, q);
      var line := TrimSpace(c[q..LineEnd(c, q)]);
      if |line| == 0 then ScanFrom(c, next, next)
      else if !HasPrefix(line, SlashSlash) then end
      else ScanFrom(c, next, end)
  }

  /** No line starts strictly inside a line. */
  lemma NoStartWithin(c: seq<Byte>, q: nat, q': nat)
    requires q < |c| && q < q' < NextLine(c, q)
    ensures !LineStart(c, q')
  {
    assert q <= q' - 1 < LineEnd(c, q);
  }

  lemma NextIsStart(c: seq<Byte>, q: nat)
    requires q < |c|
    ensures NextLine(c, q) == |c| || LineStart(c, NextLine(c, q))
  {
  }

  /** Every line that starts inside the region is blank or a comment. */
  lemma {:induction false} ScanHeaderOnly(c: seq<Byte>, q: nat, end: nat)
    requires end <= q <= |c|
    ensures forall q' :: q <= q' < ScanFrom(c, q, end) && LineStart(c, q') ==> HeaderLine(c, q')
    decreases |c| - q
  {
    if q < |c| {
      var next := NextLine(c, q);
      var line := TrimSpace(c[q..LineEnd(c, q)]);
      if |line| == 0 || HasPrefix(line, SlashSlash) {
        if |line| == 0 {
          ScanHeaderOnly(c, next, next);
        } else {
          ScanHeaderOnly(c, next, end);
        }
        forall q' | q < q' < next ensures !LineStart(c, q') {
          NoStartWithin(c, q, q');
        }
      }
    }
  }

  /** The region is empty, or it ends just after a blank line. */
  lemma {:induction false} ScanEndsAfterBlank(c: seq<Byte>, q: nat, end: nat)
    requires end <= q <= |c|
    requires q == |c| || LineStart(c, q)
    ensures var r := ScanFrom(c, q, end);
      r == end || exists q' :: q <= q' < r && LineStart(c, q') && NextLine(c, q') == r && BlankLine(c, q')
    decreases |c| - q
  {
    if q < |c| {
      var next := NextLine(c, q);
      NextIsStart(c, q);
      var line := TrimSpace(c[q..LineEnd(c, q)]);
      if |line| == 0 {
        ScanEndsAfterBlank(c, next, next);
        if ScanFrom(c, next, next) == next {
          assert BlankLine(c, q) && NextLine(c, q) == ScanFrom(c, q, end);
        }
      } else if HasPrefix(line, SlashSlash) {
        ScanEndsAfterBlank(c, next, end);
      }
    }
  }

  /** No longer region qualifies: every blank line reached through header lines only lies inside it. */
  lemma {:induction false} ScanMaximal(c: seq<Byte>, q: nat, end: nat, b: nat)
    requires end <= q <= b < |c|
    requires LineStart(c, q) && LineStart(c, b) && BlankLine(c, b)
    requires forall q' :: q <= q' <= b && LineStart(c, q') ==> HeaderLine(c, q')
    ensures NextLine(c, b) <= ScanFrom(c, q, end)
    decreases |c| - q
  {
    var next := NextLine(c, q);
    var line := TrimSpace(c[q..LineEnd(c, q)]);
    assert HeaderLine(c, q);
    if b == q {
      assert |line| == 0;
      assert ScanFrom(c, q, end) == ScanFrom(c, next, next);
    } else {
      NextIsStart(c, q);
      assert next <= b by {
        if b < next {
          NoStartWithin(c, q, b);
        }
      }
      if |line| == 0 {
        assert ScanFrom(c, q, end) == ScanFrom(c, next, next);
        ScanMaximal(c, next, next, b);
      } else {
        assert HasPrefix(line, SlashSlash);
        assert ScanFrom(c, q, end) == ScanFrom(c, next, end);
        ScanMaximal(c, next, end, b);
      }
    }
  }

  /** Every line that starts at or before `b` is blank or a comment. */
  predicate HeaderUpTo(c: seq<Byte>, b: nat)
    requires b < |c|
  {
    forall q :: 0 <= q <= b && LineStart(c, q) ==> HeaderLine(c, q)
  }

  /**
   The first `n` bytes are whole lines, each blank or a `//` comment; they
   are empty or end just after a blank line; and no longer such prefix ends
   after a blank line.
   */
  predicate InitialRegion(c: seq<Byte>, n: nat) {
    n <= |c|
    && (forall q :: 0 <= q < n && LineStart(c, q) ==> HeaderLine(c, q))
    && (n == 0 || exists q :: 0 <= q < n && LineStart(c, q) && NextLine(c, q) == n && BlankLine(c, q))
    && (forall b :: 0 <= b < |c| && LineStart(c, b) && BlankLine(c, b) && HeaderUpTo(c, b) ==> NextLine(c, b) <= n)
  }

  /** The scan from the first line finds that region. */
  lemma ScanFindsRegion(c: seq<Byte>)
    ensures InitialRegion(c, ScanFrom(c, 0, 0))
  {
    ScanHeaderOnly(c, 0, 0);
    ScanEndsAfterBlank(c, 0, 0);
    forall b | 0 <= b < |c| && LineStart(c, b) && BlankLine(c, b) && HeaderUpTo(c, b)
      ensures NextLine(c, b) <= ScanFrom(c, 0, 0)
    {
      ScanMaximal(c, 0, 0, b);
    }
  }

  /** Any two such regions bound each other, so the description fixes the result. */
  lemma InitialRegionUnique(c: seq<Byte>, n: nat, m: nat)
    requires InitialRegion(c, n) && InitialRegion(c, m)
    ensures n == m
  {
    RegionBound(c, n, m);
    RegionBound(c, m, n);
  }

  lemma RegionBound(c: seq<Byte>, n: nat, m: nat)
    requires InitialRegion(c, n) && InitialRegion(c, m)
    ensures m <= n
  {
    if m > 0 {
      var q :| 0 <= q < m && LineStart(c, q) && NextLine(c, q) == m && BlankLine(c, q);
      assert HeaderUpTo(c, q);
    }
  }

  /** `bytes.IndexByte` on the rest of the content finds the end of the current line. */
  lemma IndexIsLineEnd(c: seq<Byte>, q: nat)
    requires q < |c|
    ensures var i := IndexByte(c[q..], Newline);
      (i >= 0 ==> q + i == LineEnd(c, q) && q + i + 1 == NextLine(c, q))
      && (i < 0 ==> LineEnd(c, q) == |c| && NextLine(c, q) == |c|)
  {
  }

  /** One step of the scan: the line at `q`, cut at its newline, and where the next line starts. */
  method SplitLine(content: seq<Byte>, q: nat) returns (line: seq<Byte>, next: nat)
    requires q < |content|
    ensures line == content[q..LineEnd(content, q)] && next == NextLine(content, q)
    ensures next == |content| || LineStart(content, next)
  {
    IndexIsLineEnd(content, q);
    NextIsStart(content, q);
    var i := IndexByte(content[q..], Newline);
    if i >= 0 {
      line, next := content[q..q + i], q + i + 1;
    } else {
      line, next := content[q..], |content|;
    }
  }

  /**
   `initialComments`: the longest prefix of the content that is made of
   whole lines, each blank or a `//` comment, and that ends after a blank
   line.
   */
  method InitialComments(content: seq<Byte>) returns (r: seq<Byte>)
    ensures |r| <= |content| && r == content[..|r|]
    ensures InitialRegion(content, |r|)
    ensures |content| == 0 ==> r == []
  {
    var end: nat := 0;
    var q: nat := 0;
    while q < |content|
      invariant end <= q <= |content|
      invariant q == |content| || LineStart(content, q)
      invariant ScanFrom(content, q, end) == ScanFrom(content, 0, 0)
      decreases |content| - q
    {
      var start := q;
      var line;
      line, q := SplitLine(content, q);
      line := TrimSpace(line);
      if |line| == 0 {
        end := q;
        continue;
      }
      if !HasPrefix(line, SlashSlash) {
        assert ScanFrom(content, start, end) == end;
        break;
      }
    }
    r := content[..end];
    ScanFindsRegion(content);
  }
}

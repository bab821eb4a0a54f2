/** Block boundaries at the edges of what is shown of a file, and the block that begins on a
    line: crates/pi-ast/src/block.rs. */
module Blocks {
  import opened Common
  import opened Intervals

  const MAX: nat := 0xFFFF_FFFF

  // ---------- What is visible ----------

  predicate Valid(r: Span) {
    r.start > 0 && r.start <= r.end
  }

  ghost predicate InRanges(ranges: seq<Span>, n: nat) {
    exists r :: r in ranges && Valid(r) && Hides(r, n)
  }

  method KeepValid(ranges: seq<Span>) returns (kept: seq<Span>)
    ensures forall r :: r in kept <==> r in ranges && Valid(r)
  {
    kept := [];
    var i := 0;
    while i < |ranges|
      invariant 0 <= i <= |ranges| && forall r :: r in kept <==> r in ranges[..i] && Valid(r)
    {
      TakeMore(ranges, i);
      if Valid(ranges[i]) { kept := kept + [ranges[i]]; }
      i := i + 1;
    }
    TakeAll(ranges, i);
  }

  method MergeSorted(sorted: seq<Span>) returns (merged: seq<Span>)
    requires Sorted(sorted) && NonEmpty(sorted) && forall r <- sorted :: r.end <= MAX
    ensures Separated(merged) && SameCover(merged, sorted)
  {
    merged := [];
    var i := 0;
    while i < |sorted|
      invariant 0 <= i <= |sorted| && Separated(merged) && SameCover(merged, sorted[..i])
      invariant i < |sorted| ==> Starts(merged, sorted[i])
    {
      var x := sorted[i];
      MergeCovers(merged, sorted[..i], x);
      MergeSeparated(merged, x);
      assert sorted[..i + 1] == sorted[..i] + [x];
      ghost var next := Merge(merged, x);
      var k := |merged| - 1;
      // the addition saturates at MAX, which no start can pass
      if merged != [] && (merged[k].end >= MAX || x.start <= merged[k].end + 1) {
        assert x in sorted;
        merged := merged[k := Span(merged[k].start, Max(merged[k].end, x.end))];
      } else {
        merged := merged + [x];
      }
      assert merged == next;
      i := i + 1;
    }
    TakeAll(sorted, i);
  }

  method NormalizeRanges(ranges: seq<Span>) returns (merged: seq<Span>)
    requires forall r <- ranges :: r.end <= MAX
    ensures Separated(merged) && forall n: nat :: Covers(merged, n) <==> InRanges(ranges, n)
  {
    var kept := KeepValid(ranges);
    SortSorted(kept);
    SortCovers(kept);
    forall i | 0 <= i < |Sort(kept)| ensures Sort(kept)[i].start <= Sort(kept)[i].end {
      assert Sort(kept)[i] in kept;
    }
    merged := MergeSorted(Sort(kept));
    forall n: nat ensures Covers(kept, n) <==> InRanges(ranges, n) { }
  }

  /** Binary search over separated ranges finds a line if and only if a range has it. */
  method IsVisible(merged: seq<Span>, line: nat) returns (yes: bool)
    requires Separated(merged)
    ensures yes <==> Covers(merged, line)
  {
    var lo, hi := 0, |merged|;
    while lo < hi
      invariant 0 <= lo <= hi <= |merged|
      invariant forall i :: 0 <= i < |merged| && Hides(merged[i], line) ==> lo <= i < hi
    {
      var mid := (lo + hi) / 2;
      if line < merged[mid].start {
        forall i | mid < i < |merged| ensures !Hides(merged[i], line) { EndsGrow(merged, mid, i); }
        hi := mid;
      } else if line > merged[mid].end {
        forall i | 0 <= i < mid ensures !Hides(merged[i], line) { EndsGrow(merged, i, mid); }
        lo := mid + 1;
      } else {
        CoversOwn(merged, mid, line);
        return true;
      }
    }
    return false;
  }

  // ---------- The walk ----------

  datatype Node = Node(named: bool, start: nat, end: nat, children: seq<Node>)

  ghost predicate Below(m: Node, t: Node) {
    exists c <- t.children :: m == c || Below(m, c)
  }

  /** Showing one end of a many-line node and not the other leaves the other end's line. */
  ghost predicate LeavesOut(m: Node, merged: seq<Span>, line: nat) {
    && m.named && m.start < m.end
    && ((line == m.end && Covers(merged, m.start) && !Covers(merged, m.end))
        || (line == m.start && Covers(merged, m.end) && !Covers(merged, m.start)))
  }

  method CollectOwn(m: Node, merged: seq<Span>, out0: set<nat>) returns (out: set<nat>)
    requires Separated(merged)
    ensures forall n :: n in out <==> n in out0 || LeavesOut(m, merged, n)
  {
    out := out0;
    if m.named && m.end > m.start {
      var startVisible := IsVisible(merged, m.start);
      var endVisible := IsVisible(merged, m.end);
      if startVisible && !endVisible {
        out := out + {m.end};
      } else if endVisible && !startVisible {
        out := out + {m.start};
      }
    }
  }

  ghost predicate LeftOutBelow(t: Node, merged: seq<Span>, line: nat) {
    exists m :: Below(m, t) && LeavesOut(m, merged, line)
  }

  ghost predicate LeftOutAmong(ts: seq<Node>, merged: seq<Span>, line: nat) {
    exists c <- ts :: LeavesOut(c, merged, line) || LeftOutBelow(c, merged, line)
  }

  lemma AmongIsBelow(t: Node, merged: seq<Span>, line: nat)
    ensures LeftOutAmong(t.children, merged, line) <==> LeftOutBelow(t, merged, line)
  {
    if LeftOutAmong(t.children, merged, line) {
      var c :| c in t.children && (LeavesOut(c, merged, line) || LeftOutBelow(c, merged, line));
      if LeavesOut(c, merged, line) {
        assert Below(c, t);
      } else {
        var m :| Below(m, c) && LeavesOut(m, merged, line);
        assert Below(m, t);
      }
    }
    if LeftOutBelow(t, merged, line) {
      var m :| Below(m, t) && LeavesOut(m, merged, line);
      var c :| c in t.children && (m == c || Below(m, c));
    }
  }

  method CollectBoundaries(t: Node, root: bool, merged: seq<Span>, out0: set<nat>) returns (out: set<nat>)
    requires Separated(merged)
    ensures forall n :: n in out <==> n in out0 || (!root && LeavesOut(t, merged, n)) || LeftOutBelow(t, merged, n)
    decreases t
  {
    out := out0;
    if !root { out := CollectOwn(t, merged, out); }
    ghost var own := out;
    var i := 0;
    while i < |t.children|
      invariant 0 <= i <= |t.children|
      invariant forall n :: n in out <==> n in own || LeftOutAmong(t.children[..i], merged, n)
    {
      TakeMore(t.children, i);
      out := CollectBoundaries(t.children[i], false, merged, out);
      i := i + 1;
    }
    TakeAll(t.children, i);
    forall n { AmongIsBelow(t, merged, n); }
  }

  predicate Increasing(s: seq<nat>) {
    forall i, j :: 0 <= i < j < |s| ==> s[i] < s[j]
  }

  method Ascending(lines: set<nat>) returns (s: seq<nat>)
    ensures Increasing(s) && forall n :: n in s <==> n in lines
  {
    s := [];
    var rest := lines;
    while rest != {}
      invariant rest <= lines && Increasing(s) && (forall n :: n in s <==> n in lines - rest)
      invariant forall a, b | a in s && b in rest :: a < b
      decreases rest
    {
      var least := Least(rest);
      forall i | 0 <= i < |s| ensures s[i] < least { assert s[i] in s; }
      s := s + [least];
      rest := rest - {least};
    }
  }

  method Least(lines: set<nat>) returns (least: nat)
    requires lines != {}
    ensures least in lines && forall n <- lines :: least <= n
  {
    least :| least in lines;
    var rest := lines - {least};
    while rest != {}
      invariant rest <= lines && least in lines && forall n :: n in lines && n !in rest ==> least <= n
      decreases rest
    {
      var n :| n in rest;
      if n < least { least := n; }
      rest := rest - {n};
    }
  }

  /** The closing (opening) lines outside the shown ranges of the many-line blocks, the file
      itself aside, that open (close) inside them: all of those lines, once each, in order. */
  method EnclosingBlockBoundaries(root: Node, ranges: seq<Span>) returns (lines: seq<nat>)
    requires forall r <- ranges :: r.end <= MAX
    ensures Increasing(lines)
    ensures forall n :: n in lines <==>
              exists m :: Below(m, root) && m.named && m.start < m.end && !InRanges(ranges, n)
                && ((n == m.end && InRanges(ranges, m.start)) || (n == m.start && InRanges(ranges, m.end)))
  {
    var merged := NormalizeRanges(ranges);
    var found: set<nat> := {};
    if merged != [] { found := CollectBoundaries(root, true, merged, {}); }
    lines := Ascending(found);
    forall n ensures n in lines <==> LeftOutBelow(root, merged, n) {
      if merged == [] {
        forall m ensures !LeavesOut(m, merged, n) { }
      }
    }
    forall n ensures LeftOutBelow(root, merged, n) <==>
                     exists m :: Below(m, root) && m.named && m.start < m.end && !InRanges(ranges, n)
                       && ((n == m.end && InRanges(ranges, m.start)) || (n == m.start && InRanges(ranges, m.end)))
    { SameLeftOut(root, ranges, merged, n); }
  }

  lemma {:induction false} SameLeftOut(root: Node, ranges: seq<Span>, merged: seq<Span>, n: nat)
    requires forall k: nat :: Covers(merged, k) <==> InRanges(ranges, k)
    ensures LeftOutBelow(root, merged, n) <==>
            exists m :: Below(m, root) && m.named && m.start < m.end && !InRanges(ranges, n)
              && ((n == m.end && InRanges(ranges, m.start)) || (n == m.start && InRanges(ranges, m.end)))
  {
    if LeftOutBelow(root, merged, n) {
      var m :| Below(m, root) && LeavesOut(m, merged, n);
      assert !InRanges(ranges, n);
    }
    if m :| Below(m, root) && m.named && m.start < m.end && !InRanges(ranges, n)
            && ((n == m.end && InRanges(ranges, m.start)) || (n == m.start && InRanges(ranges, m.end)))
    {
      assert LeavesOut(m, merged, n);
    }
  }

  // ---------- The block that begins on a line ----------

  /** A node and its ancestors, innermost first and the file last: none starts after its child. */
  predicate Path(path: seq<nat>) {
    path != [] && forall i :: 0 < i < |path| ==> path[i] <= path[i - 1]
  }

  lemma {:induction false} PathFalls(path: seq<nat>, i: nat, j: nat)
    requires Path(path) && i <= j < |path|
    ensures path[j] <= path[i]
    decreases j
  {
    if i < j { PathFalls(path, i, j - 1); }
  }

  /** From the rows on which a leaf and its ancestors start: the climb ends on the outermost
      ancestor below the file that starts on `row`, or finds that nothing does. */
  method Climb(path: seq<nat>, row: nat) returns (top: Option<nat>)
    requires Path(path)
    ensures top.None? <==> path[0] != row
    ensures top.Some? ==> top.value < |path| && path[top.value] == row && (|path| > 1 ==> top.value < |path| - 1)
    ensures top.Some? ==> forall j :: 0 <= j < |path| - 1 ==> (path[j] == row <==> j <= top.value)
  {
    if path[0] != row { return None; }
    var at := 0;
    while at + 1 < |path|
      invariant 0 <= at < |path| && path[at] == row && (|path| > 1 ==> at < |path| - 1)
      decreases |path| - at
    {
      if at + 1 == |path| - 1 { break; }
      if path[at + 1] != row { break; }
      at := at + 1;
    }
    forall j | 0 <= j < |path| - 1 ensures path[j] == row <==> j <= at {
      if j <= at {
        PathFalls(path, 0, j);
        PathFalls(path, j, at);
      } else {
        PathFalls(path, at + 1, j);
        PathFalls(path, at, at + 1);
      }
    }
    return Some(at);
  }

  // ---------- The block of a line ----------

  /** A node around the first character of a line: where it starts and ends, and whether it has a
      syntax error below it. */
  datatype Around = Around(row: nat, startLine: nat, endLine: nat, hasError: bool)

  function Rows(path: seq<Around>): seq<nat> {
    seq(|path|, i requires 0 <= i < |path| => path[i].row)
  }

  predicate Indents(c: char) {
    c == ' ' || c == '\t'
  }

  /** The first character of a line's content stands at `col`. */
  predicate ContentAt(lines: seq<string>, row: nat, col: nat) {
    row < |lines| && col < |lines[row]| && !Indents(lines[row][col]) && forall j :: 0 <= j < col ==> Indents(lines[row][j])
  }

  method FirstContentColumn(lines: seq<string>, row: nat) returns (col: Option<nat>)
    ensures col.Some? ==> ContentAt(lines, row, col.value)
    ensures col.None? ==> forall c: nat :: !ContentAt(lines, row, c)
  {
    if row >= |lines| { return None; }
    var at := 0;
    while at < |lines[row]|
      invariant 0 <= at <= |lines[row]| && forall j :: 0 <= j < at ==> Indents(lines[row][j])
    {
      if !Indents(lines[row][at]) { return Some(at); }
      at := at + 1;
    }
    return None;
  }

  /** Node `i` of the path is the outermost below the file that begins on `row`, the leaf
      beginning there, too. */
  predicate Begins(path: seq<Around>, row: nat, i: nat) {
    && path != [] && path[0].row == row && i < |path| && path[i].row == row && (|path| > 1 ==> i < |path| - 1)
    && forall j :: i < j < |path| - 1 ==> path[j].row != row
  }

  ghost predicate IsBlockAt(lines: seq<string>, row: nat, leaf: (nat, nat) -> Option<seq<Around>>, r: Span,
                            col: nat, i: nat) {
    && ContentAt(lines, row, col) && leaf(row, col).Some?
    && var path := leaf(row, col).value;
       Begins(path, row, i) && !path[i].hasError && r == Span(path[i].startLine, path[i].endLine)
  }

  ghost predicate IsBlockOnRow(lines: seq<string>, row: nat, leaf: (nat, nat) -> Option<seq<Around>>, r: Span) {
    exists col: nat, i: nat :: IsBlockAt(lines, row, leaf, r, col, i)
  }

  /** What a block on `line` (counted from 1) is: the outermost node that begins with the line's
      content, if it is free of syntax errors. */
  ghost predicate IsBlock(lines: seq<string>, line: nat, leaf: (nat, nat) -> Option<seq<Around>>, r: Span) {
    line > 0 && IsBlockOnRow(lines, line - 1, leaf, r)
  }

  /** `lines` are the code's, split at newlines; `leaf` gives the node around a character and its
      ancestors, innermost first. */
  method BlockRangeAt(lines: seq<string>, line: nat, known: bool, leaf: (nat, nat) -> Option<seq<Around>>)
    returns (r: Option<Span>)
    requires forall row, col :: leaf(row, col).Some? ==> Path(Rows(leaf(row, col).value))
    ensures r.Some? ==> known && IsBlock(lines, line, leaf, r.value)
    ensures r.None? ==> !known || forall s :: !IsBlock(lines, line, leaf, s)
  {
    if line == 0 || !known { return None; }
    var row := line - 1;
    var col := FirstContentColumn(lines, row);
    if col.None? { return None; }
    var path := leaf(row, col.value);
    OneColumn(lines, row, col.value);
    if path.None? { return None; }
    var top := Climb(Rows(path.value), row);
    if top.None? { return None; }
    OneBlock(path.value, row, top.value);
    var node := path.value[top.value];
    if node.hasError { return None; }
    assert IsBlockAt(lines, row, leaf, Span(node.startLine, node.endLine), col.value, top.value);
    return Some(Span(node.startLine, node.endLine));
  }

  lemma OneColumn(lines: seq<string>, row: nat, col: nat)
    requires ContentAt(lines, row, col)
    ensures forall c: nat :: ContentAt(lines, row, c) ==> c == col
  {
  }

  lemma OneBlock(path: seq<Around>, row: nat, top: nat)
    requires Path(Rows(path)) && top < |path| && path[0].row == row && path[top].row == row
    requires |path| > 1 ==> top < |path| - 1
    requires forall j :: 0 <= j < |path| - 1 ==> (Rows(path)[j] == row <==> j <= top)
    ensures Begins(path, row, top) && forall i: nat :: Begins(path, row, i) ==> i == top
  {
    forall j | top < j < |path| - 1 ensures path[j].row != row { assert Rows(path)[j] == path[j].row; }
    forall i: nat | Begins(path, row, i) ensures i == top {
      if i < |path| - 1 { assert Rows(path)[i] == path[i].row; }
    }
  }
}

/** From folded spans to the segments of a summary: `normalize_spans` and `build_segments` of
    crates/pi-ast/src/summary.rs. */
module SummarySegments {
  import opened Common
  import opened Intervals
  import opened SummaryForest

  // ---------- Normalising ----------

  /** As few spans as possible, in order and within the file. */
  predicate SeparatedUpTo(s: seq<Span>, total: nat) {
    Separated(s) && forall i :: 0 <= i < |s| ==> s[i].end <= total
  }

  ghost predicate SameUpTo(a: seq<Span>, b: seq<Span>, total: nat) {
    forall n: nat :: Covers(a, n) <==> n <= total && Covers(b, n)
  }

  function Cut(span: Span, total: nat): seq<Span> {
    if span.start <= span.end && span.start <= total
    then [Span(span.start, if span.end <= total then span.end else total)]
    else []
  }

  lemma CutStep(clipped: seq<Span>, seen: seq<Span>, span: Span, total: nat)
    requires SameUpTo(clipped, seen, total)
    ensures SameUpTo(clipped + Cut(span, total), seen + [span], total)
  {
    forall n: nat ensures Covers(clipped + Cut(span, total), n) <==> n <= total && Covers(seen + [span], n) {
      CoversMore(seen, span, n);
      if Cut(span, total) == [] {
        assert clipped + Cut(span, total) == clipped;
      } else {
        CoversMore(clipped, Cut(span, total)[0], n);
      }
    }
  }

  predicate StartsLater(s: seq<Span>, first: nat) {
    forall i :: 0 <= i < |s| ==> s[i].start >= first
  }

  /** Spans that begin in the file, cut off at its last line. */
  method Clip(spans: seq<Span>, total: nat) returns (clipped: seq<Span>)
    ensures SameUpTo(clipped, spans, total)
    ensures forall s <- clipped :: s.start <= s.end <= total
    ensures forall first: nat :: StartsLater(spans, first) ==> StartsLater(clipped, first)
  {
    clipped := [];
    var i := 0;
    while i < |spans|
      invariant 0 <= i <= |spans| && SameUpTo(clipped, spans[..i], total)
      invariant forall s <- clipped :: s.start <= s.end <= total
      invariant forall first: nat :: StartsLater(spans, first) ==> StartsLater(clipped, first)
    {
      CutStep(clipped, spans[..i], spans[i], total);
      TakeMore(spans, i);
      clipped := clipped + Cut(spans[i], total);
      i := i + 1;
    }
    TakeAll(spans, i);
  }

  ghost predicate MergedSoFar(merged: seq<Span>, seen: seq<Span>, total: nat) {
    SeparatedUpTo(merged, total) && SameCover(merged, seen)
  }

  lemma MergeOne(merged: seq<Span>, seen: seq<Span>, x: Span, total: nat, first: nat)
    requires MergedSoFar(merged, seen, total) && Starts(merged, x) && x.start <= x.end <= total
    ensures MergedSoFar(Merge(merged, x), seen + [x], total)
    ensures forall y: Span :: Le(x, y) ==> Starts(Merge(merged, x), y)
    ensures StartsLater(merged, first) && x.start >= first ==> StartsLater(Merge(merged, x), first)
  {
    MergeCovers(merged, seen, x);
    MergeSeparated(merged, x);
  }

  method MergeSorted(sorted: seq<Span>, total: nat, ghost first: nat) returns (merged: seq<Span>)
    requires total <= MAX && Sorted(sorted) && StartsLater(sorted, first)
    requires forall s <- sorted :: s.start <= s.end <= total
    ensures MergedSoFar(merged, sorted, total) && StartsLater(merged, first)
  {
    merged := [];
    var i := 0;
    while i < |sorted|
      invariant 0 <= i <= |sorted| && MergedSoFar(merged, sorted[..i], total)
      invariant i < |sorted| ==> Starts(merged, sorted[i])
      invariant StartsLater(merged, first)
    {
      var x := sorted[i];
      MergeOne(merged, sorted[..i], x, total, first);
      assert sorted[..i + 1] == sorted[..i] + [x];
      ghost var next := Merge(merged, x);
      var k := |merged| - 1;
      if merged != [] && x.start <= SatAdd(merged[k].end, 1) {
        merged := merged[k := Span(merged[k].start, Max(merged[k].end, x.end))];
      } else {
        merged := merged + [x];
      }
      assert merged == next;
      i := i + 1;
    }
    TakeAll(sorted, i);
  }

  /** The same lines as the input covers within the file. */
  method NormalizeSpans(spans: seq<Span>, total: nat) returns (merged: seq<Span>)
    requires total <= MAX
    ensures SeparatedUpTo(merged, total)
    ensures total == 0 ==> merged == []
    ensures total > 0 ==> SameUpTo(merged, spans, total)
    ensures StartsLater(spans, 1) ==> StartsLater(merged, 1)
  {
    if total == 0 { return []; }
    var clipped := Clip(spans, total);
    SortSorted(clipped);
    SortCovers(clipped);
    ghost var first := if StartsLater(clipped, 1) then 1 else 0;
    InSorted(clipped, first);
    merged := MergeSorted(Sort(clipped), total, first);
  }

  lemma InSorted(clipped: seq<Span>, first: nat)
    requires StartsLater(clipped, first)
    ensures StartsLater(Sort(clipped), first)
  {
    SortSorted(clipped);
    forall i | 0 <= i < |Sort(clipped)| ensures Sort(clipped)[i].start >= first {
      assert Sort(clipped)[i] in clipped;
    }
  }

  // ---------- Segments ----------

  datatype Segment = Segment(elided: bool, start: nat, end: nat, text: Option<string>)

  function LineAt(lines: seq<string>, n: nat): string
    requires n >= 1
  {
    if n <= |lines| then lines[n - 1] else ""
  }

  /** Lines `start` to `end`, both included. */
  function Slice(lines: seq<string>, start: nat, end: nat): seq<string>
    requires 1 <= start
    decreases end
  {
    if end < start then [] else Slice(lines, start, end - 1) + [LineAt(lines, end)]
  }

  /** A segment is of one kind throughout, and what is kept is the source's own lines. */
  ghost predicate Faithful(s: Segment, lines: seq<string>, spans: seq<Span>) {
    && 1 <= s.start <= s.end
    && (forall n :: s.start <= n <= s.end ==> (Covers(spans, n) <==> s.elided))
    && s.text == if s.elided then None else Some(JoinLines(Slice(lines, s.start, s.end)))
  }

  /** The segments follow each other from line 1 to line `upto`, alternating in kind. */
  ghost predicate Tiles(segs: seq<Segment>, upto: nat, lines: seq<string>, spans: seq<Span>) {
    if segs == [] then upto == 0
    else
      var k := |segs| - 1;
      && segs[k].end == upto && Faithful(segs[k], lines, spans)
      && (k > 0 ==> segs[k - 1].elided != segs[k].elided)
      && Tiles(segs[..k], segs[k].start - 1, lines, spans)
  }

  lemma {:induction false} TileMore(segs: seq<Segment>, s: Segment, lines: seq<string>, spans: seq<Span>)
    requires Faithful(s, lines, spans) && Tiles(segs, s.start - 1, lines, spans)
    requires segs != [] ==> segs[|segs| - 1].elided != s.elided
    ensures Tiles(segs + [s], s.end, lines, spans)
  {
    MoreInit(segs, s);
  }

  method BuildSegments(lines: seq<string>, total: nat, spans: seq<Span>) returns (segs: seq<Segment>)
    ensures Tiles(segs, total, lines, spans)
  {
    segs := [];
    if total == 0 { return; }
    var current: Option<bool> := None;
    var start := 1;
    var currentLines: seq<string> := [];
    var n := 1;
    while n <= total
      invariant 1 <= start <= n <= total + 1 && (current.None? <==> n == 1) && (n > 1 ==> start < n)
      invariant Tiles(segs, start - 1, lines, spans)
      invariant current.Some? && segs != [] ==> segs[|segs| - 1].elided != current.value
      invariant current.Some? ==> forall m :: start <= m < n ==> (Covers(spans, m) <==> current.value)
      invariant current.None? ==> segs == []
      invariant currentLines == if current == Some(true) then [] else Slice(lines, start, n - 1)
    {
      var elided := exists s <- spans :: Hides(s, n);
      if current.Some? && current.value != elided {
        segs := PushSegment(segs, current.value, start, n - 1, currentLines, lines, spans);
        start, currentLines := n, [];
      }
      current := Some(elided);
      if !elided { currentLines := currentLines + [LineAt(lines, n)]; }
      n := n + 1;
    }
    segs := PushSegment(segs, current.value, start, total, currentLines, lines, spans);
  }

  method PushSegment(segs: seq<Segment>, elided: bool, start: nat, end: nat, text: seq<string>,
                     ghost lines: seq<string>, ghost spans: seq<Span>) returns (more: seq<Segment>)
    requires 1 <= start <= end && Tiles(segs, start - 1, lines, spans)
    requires segs != [] ==> segs[|segs| - 1].elided != elided
    requires forall m :: start <= m <= end ==> (Covers(spans, m) <==> elided)
    requires !elided ==> text == Slice(lines, start, end)
    ensures Tiles(more, end, lines, spans)
    ensures more == segs + [Segment(elided, start, end, if elided then None else Some(JoinLines(text)))]
  {
    var s := Segment(elided, start, end, if elided then None else Some(JoinLines(text)));
    TileMore(segs, s, lines, spans);
    more := segs + [s];
  }

  // ---------- What the segments amount to ----------

  function Elided(segs: seq<Segment>): seq<Span> {
    if segs == [] then []
    else
      var k := |segs| - 1;
      Elided(segs[..k]) + if segs[k].elided then [Span(segs[k].start, segs[k].end)] else []
  }

  lemma HeadIn(spans: seq<Span>)
    ensures spans == [] || (|spans| > 0 && spans[0] in spans)
  {
  }

  lemma NoneAtZero(spans: seq<Span>)
    requires SeparatedUpTo(spans, 0) && StartsLater(spans, 1)
    ensures spans == []
  {
    HeadIn(spans);
  }

  lemma LastEnd(spans: seq<Span>, upto: nat)
    requires SeparatedUpTo(spans, upto) && Covers(spans, upto)
    ensures spans != [] && spans[|spans| - 1].end == upto
  {
    var i := CoverIndex(spans, upto);
    if i < |spans| - 1 { EndsGrow(spans, i, |spans| - 1); }
  }

  /** The line before a span is not covered. */
  lemma GapBefore(spans: seq<Span>, upto: nat)
    requires SeparatedUpTo(spans, upto) && spans != [] && spans[|spans| - 1].start >= 1
    ensures !Covers(spans, spans[|spans| - 1].start - 1)
  {
    var k := |spans| - 1;
    if Covers(spans, spans[k].start - 1) {
      var i := CoverIndex(spans, spans[k].start - 1);
      if i < k { EndsGrow(spans, i, k); }
    }
  }

  /** A covered stretch that reaches `upto`, with an uncovered line before it, is the last span. */
  lemma LastSpan(spans: seq<Span>, start: nat, upto: nat)
    requires SeparatedUpTo(spans, upto) && 1 <= start <= upto && StartsLater(spans, 1)
    requires forall n: nat :: start <= n <= upto ==> Covers(spans, n)
    requires start > 1 ==> !Covers(spans, start - 1)
    ensures spans != [] && spans[|spans| - 1] == Span(start, upto)
    ensures SeparatedUpTo(spans[..|spans| - 1], start - 1)
  {
    LastEnd(spans, upto);
    var k := |spans| - 1;
    GapBefore(spans, upto);
    if spans[k].start < start { CoversOwn(spans, k, start - 1); }
    forall j | 0 <= j < k ensures spans[j].end <= start - 1 { EndsGrow(spans, j, k); }
  }

  lemma NoSpanInKept(spans: seq<Span>, start: nat, upto: nat)
    requires SeparatedUpTo(spans, upto) && forall n :: start <= n <= upto ==> !Covers(spans, n)
    requires start >= 1
    ensures SeparatedUpTo(spans, start - 1)
  {
    forall i | 0 <= i < |spans| ensures spans[i].end <= start - 1 {
      assert spans[i] in spans && Hides(spans[i], spans[i].end);
      assert Covers(spans, spans[i].end);
    }
  }

  /** The elided segments are the normalised spans, one for one and in order. */
  lemma {:induction false} ElidedAreSpans(segs: seq<Segment>, upto: nat, lines: seq<string>,
                                          spans: seq<Span>, all: seq<Span>)
    requires Tiles(segs, upto, lines, all) && SeparatedUpTo(spans, upto)
    requires StartsLater(spans, 1)
    requires forall n: nat | n <= upto :: Covers(spans, n) <==> Covers(all, n)
    ensures Elided(segs) == spans
    decreases segs
  {
    if segs == [] {
      NoneAtZero(spans);
    } else {
      var k := |segs| - 1;
      var seg := segs[k];
      if seg.elided {
        if k > 0 { assert Faithful(segs[..k][k - 1], lines, all); }
        LastSpan(spans, seg.start, upto);
        var init := spans[..|spans| - 1];
        assert spans == init + [spans[|spans| - 1]];
        forall n: nat | n <= seg.start - 1 ensures Covers(init, n) <==> Covers(all, n) {
          CoversMore(init, spans[|spans| - 1], n);
        }
        ElidedAreSpans(segs[..k], seg.start - 1, lines, init, all);
      } else {
        NoSpanInKept(spans, seg.start, upto);
        ElidedAreSpans(segs[..k], seg.start - 1, lines, spans, all);
      }
    }
  }

  // ---------- Putting the source together again ----------

  /** What a segment stands for: its text, or the lines it leaves out. */
  function Full(s: Segment, lines: seq<string>): string
    requires s.start >= 1
  {
    match s.text
    case Some(t) => t
    case None => JoinLines(Slice(lines, s.start, s.end))
  }

  lemma {:induction false} SliceSplits(lines: seq<string>, a: nat, b: nat, c: nat)
    requires 1 <= a <= b + 1 <= c + 1
    ensures Slice(lines, a, c) == Slice(lines, a, b) + Slice(lines, b + 1, c)
    decreases c
  {
    if b < c { SliceSplits(lines, a, b, c - 1); }
  }

  lemma {:induction false} JoinCat(a: seq<string>, b: seq<string>)
    requires a != [] && b != []
    ensures JoinLines(a + b) == JoinLines(a) + "\n" + JoinLines(b)
    decreases b
  {
    var k := |b| - 1;
    assert (a + b)[..|a + b| - 1] == a + b[..k];
    if k > 0 { JoinCat(a, b[..k]); } else { assert a + b[..k] == a; }
  }

  lemma {:induction false} SliceAll(lines: seq<string>, n: nat)
    requires n <= |lines|
    ensures Slice(lines, 1, n) == lines[..n]
    decreases n
  {
    if n > 0 {
      SliceAll(lines, n - 1);
      assert lines[..n] == lines[..n - 1] + [lines[n - 1]];
    }
  }

  ghost function Fulls(segs: seq<Segment>, upto: nat, lines: seq<string>, spans: seq<Span>): (r: seq<string>)
    requires Tiles(segs, upto, lines, spans)
    ensures |r| == |segs|
  {
    if segs == [] then []
    else
      var k := |segs| - 1;
      Fulls(segs[..k], segs[k].start - 1, lines, spans) + [Full(segs[k], lines)]
  }

  lemma FullsStep(before: seq<string>, seg: Segment, lines: seq<string>)
    requires 1 <= seg.start <= seg.end && (before == [] <==> seg.start == 1)
    requires JoinLines(before) == JoinLines(Slice(lines, 1, seg.start - 1))
    requires Full(seg, lines) == JoinLines(Slice(lines, seg.start, seg.end))
    ensures JoinLines(before + [Full(seg, lines)]) == JoinLines(Slice(lines, 1, seg.end))
  {
    var a, b := Slice(lines, 1, seg.start - 1), Slice(lines, seg.start, seg.end);
    SliceSplits(lines, 1, seg.start - 1, seg.end);
    if before != [] {
      JoinMore(before, Full(seg, lines));
      JoinCat(a, b);
    } else {
      JoinFirst(before, Full(seg, lines));
      assert a == [] && a + b == b;
    }
  }

  lemma {:induction false} JoinMore(before: seq<string>, x: string)
    requires before != []
    ensures JoinLines(before + [x]) == JoinLines(before) + "\n" + x
  {
    MoreInit(before, x);
  }

  lemma {:induction false} JoinFirst(before: seq<string>, x: string)
    requires before == []
    ensures JoinLines(before + [x]) == x
  {
  }

  /** Putting the lines back where they were left out gives the source again. */
  lemma {:induction false} SegmentsRestoreSource(segs: seq<Segment>, upto: nat, lines: seq<string>, spans: seq<Span>)
    requires Tiles(segs, upto, lines, spans)
    ensures JoinLines(Fulls(segs, upto, lines, spans)) == JoinLines(Slice(lines, 1, upto))
    decreases segs
  {
    if segs != [] {
      var k := |segs| - 1;
      SegmentsRestoreSource(segs[..k], segs[k].start - 1, lines, spans);
      FullsStep(Fulls(segs[..k], segs[k].start - 1, lines, spans), segs[k], lines);
    }
  }
}

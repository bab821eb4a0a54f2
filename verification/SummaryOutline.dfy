/** A whole summary, from the forest of elidable spans to the segments a reader gets. */
module SummaryOutline {
  import opened Common
  import opened Intervals
  import opened SummaryForest
  import opened SummaryUnfold
  import opened SummarySegments

  ghost predicate SpansAre(spans: seq<Span>, nodes: seq<SpanNode>, ids: set<nat>) {
    && (forall s <- spans :: exists i <- ids :: i < |nodes| && nodes[i].span == s)
    && (forall i <- ids :: i < |nodes| && nodes[i].span in spans)
  }

  /** The spans of a set of nodes, in no particular order. */
  method SpansOf(nodes: seq<SpanNode>, ids: set<nat>) returns (spans: seq<Span>)
    requires forall i <- ids :: i < |nodes|
    ensures SpansAre(spans, nodes, ids)
  {
    spans := [];
    var rest := ids;
    while rest != {}
      invariant rest <= ids && SpansAre(spans, nodes, ids - rest)
      decreases rest
    {
      var i :| i in rest;
      spans := spans + [nodes[i].span];
      rest := rest - {i};
    }
  }

  lemma CoversIffHidden(spans: seq<Span>, nodes: seq<SpanNode>, ids: set<nat>, n: nat)
    requires SpansAre(spans, nodes, ids)
    ensures Covers(spans, n) <==> !Visible(nodes, ids, n)
  {
    if Covers(spans, n) {
      var s :| s in spans && Hides(s, n);
      var i :| i in ids && i < |nodes| && nodes[i].span == s;
    }
    if !Visible(nodes, ids, n) {
      var i :| i in ids && i < |nodes| && Hides(nodes[i].span, n);
      assert nodes[i].span in spans;
    }
  }

  /** How many lines of text a reader of the segments sees. */
  function KeptLines(segs: seq<Segment>): int {
    if segs == [] then 0
    else
      var k := |segs| - 1;
      KeptLines(segs[..k]) + if segs[k].elided then 0 else segs[k].end - segs[k].start + 1
  }

  ghost function Uncovered(spans: seq<Span>, upto: nat): set<nat> {
    set n: nat | 1 <= n <= upto && IsUncovered(spans, n)
  }

  ghost predicate IsUncovered(spans: seq<Span>, n: nat) {
    !Covers(spans, n)
  }

  lemma UncoveredStretch(spans: seq<Span>, a: nat, b: nat, elided: bool)
    requires 1 <= a <= b && forall n: nat :: a <= n <= b ==> (Covers(spans, n) <==> elided)
    ensures |Uncovered(spans, b)| == |Uncovered(spans, a - 1)| + if elided then 0 else b - a + 1
  {
    var more, fewer := Uncovered(spans, b), Uncovered(spans, a - 1);
    if elided {
      assert more == fewer;
    } else {
      var stretch := Span(a, b);
      LinesCard(stretch);
      forall n: nat ensures n in more <==> n in fewer + LinesOf(stretch) {
        assert Hides(stretch, n) <==> a <= n <= b;
        assert a <= n <= b ==> IsUncovered(spans, n);
      }
      assert more == fewer + LinesOf(stretch);
    }
  }

  lemma {:induction false} KeptIsUncovered(segs: seq<Segment>, upto: nat, lines: seq<string>, spans: seq<Span>)
    requires Tiles(segs, upto, lines, spans)
    ensures KeptLines(segs) == |Uncovered(spans, upto)|
    decreases segs
  {
    if segs == [] {
      assert Uncovered(spans, upto) == {};
    } else {
      var k := |segs| - 1;
      KeptIsUncovered(segs[..k], segs[k].start - 1, lines, spans);
      UncoveredStretch(spans, segs[k].start, segs[k].end, segs[k].elided);
    }
  }

  lemma {:induction false} KeptIsShown(segs: seq<Segment>, lines: seq<string>, merged: seq<Span>, spans: seq<Span>,
                    nodes: seq<SpanNode>, ids: set<nat>, total: nat)
    requires Tiles(segs, total, lines, merged) && SpansAre(spans, nodes, ids)
    requires total > 0 ==> SameUpTo(merged, spans, total)
    ensures KeptLines(segs) == |Shown(nodes, ids, total)|
  {
    KeptIsUncovered(segs, total, lines, merged);
    forall n: nat ensures n in Uncovered(merged, total) <==> n in Shown(nodes, ids, total) {
      CoversIffHidden(spans, nodes, ids, n);
      assert IsUncovered(merged, n) <==> !Covers(merged, n);
    }
    assert Uncovered(merged, total) == Shown(nodes, ids, total);
  }

  /** What a summary is: segments that tile the file, elided where the folded spans are and
      maximal, with as many kept lines as the unfold pass has steered by. */
  ghost predicate SummaryOf(segs: seq<Segment>, nodes: seq<SpanNode>, roots: seq<nat>, depth: seq<nat>,
                            lines: seq<string>, merged: seq<Span>, folded: set<nat>, open: set<nat>, last: nat,
                            b: Limits) {
    && PassEnds(nodes, roots, depth, folded, open, last, b)
    && Tiles(segs, |lines|, lines, merged) && SeparatedUpTo(merged, |lines|)
    && ((forall n <- nodes :: n.span.start >= 1) ==> Elided(segs) == merged)
    && KeptLines(segs) == |Shown(nodes, folded, |lines|)|
    && CoversHidden(merged, nodes, folded, |lines|)
  }

  /** Of the file's lines, the ranges cover those that a folded span hides. */
  ghost predicate CoversHidden(merged: seq<Span>, nodes: seq<SpanNode>, folded: set<nat>, total: nat) {
    forall n: nat :: 1 <= n <= total ==> (Covers(merged, n) <==> !Visible(nodes, folded, n))
  }

  lemma MergedCoversHidden(merged: seq<Span>, spans: seq<Span>, nodes: seq<SpanNode>, folded: set<nat>, total: nat)
    requires SpansAre(spans, nodes, folded) && (total > 0 ==> SameUpTo(merged, spans, total))
    ensures CoversHidden(merged, nodes, folded, total)
  {
    forall n: nat | 1 <= n <= total ensures Covers(merged, n) <==> !Visible(nodes, folded, n) {
      CoversIffHidden(spans, nodes, folded, n);
    }
  }

  /** A line that the reader of the segments does not see. */
  predicate LeftOut(segs: seq<Segment>, n: nat) {
    exists i :: 0 <= i < |segs| && segs[i].elided && segs[i].start <= n <= segs[i].end
  }

  lemma {:induction false} LeftOutIs(segs: seq<Segment>, upto: nat, lines: seq<string>, spans: seq<Span>, n: nat)
    requires Tiles(segs, upto, lines, spans)
    ensures LeftOut(segs, n) <==> 1 <= n <= upto && Covers(spans, n)
    decreases segs
  {
    if segs != [] {
      var k := |segs| - 1;
      LeftOutIs(segs[..k], segs[k].start - 1, lines, spans, n);
      if LeftOut(segs[..k], n) {
        var i :| 0 <= i < k && segs[..k][i].elided && segs[..k][i].start <= n <= segs[..k][i].end;
        assert segs[i] == segs[..k][i];
      }
      if LeftOut(segs, n) {
        var i :| 0 <= i < |segs| && segs[i].elided && segs[i].start <= n <= segs[i].end;
        if i < k { assert segs[..k][i] == segs[i]; }
      }
      if segs[k].start <= n <= segs[k].end && segs[k].elided { assert LeftOut(segs, n); }
    }
  }

  /** The summary of a file of `lines` with these elidable spans. */
  method SummarizeForest(forest: ElidableForest, ghost depth: seq<nat>, lines: seq<string>, until: nat, limit: nat)
    returns (segs: seq<Segment>)
    requires Structural(forest.nodes, forest.roots) && Levels(forest.nodes, forest.roots, depth) && |lines| <= MAX
    ensures exists merged, folded, open, last ::
              SummaryOf(segs, forest.nodes, forest.roots, depth, lines, merged, folded, open, last,
                        Limits(|lines|, until, limit))
  {
    var total := |lines|;
    ghost var b := Limits(total, until, limit);
    var folded := SelectFolded(forest, depth, total, until, limit);
    ghost var open, last :| PassEnds(forest.nodes, forest.roots, depth, folded, open, last, b);
    ReachBounded(forest.nodes, forest.roots, open);
    var spans := SpansOf(forest.nodes, folded);
    var merged := NormalizeSpans(spans, total);
    segs := BuildSegments(lines, total, merged);
    KeptIsShown(segs, lines, merged, spans, forest.nodes, folded, total);
    MergedCoversHidden(merged, spans, forest.nodes, folded, total);
    if forall n <- forest.nodes :: n.span.start >= 1 {
      StartsKept(spans, forest.nodes, folded);
      ElidedAreSpans(segs, total, lines, merged, merged);
    }
    assert SummaryOf(segs, forest.nodes, forest.roots, depth, lines, merged, folded, open, last, b);
  }

  lemma StartsKept(spans: seq<Span>, nodes: seq<SpanNode>, ids: set<nat>)
    requires SpansAre(spans, nodes, ids) && forall n <- nodes :: n.span.start >= 1
    ensures StartsLater(spans, 1)
  {
    forall i | 0 <= i < |spans| ensures spans[i].start >= 1 {
      assert spans[i] in spans;
    }
  }
}

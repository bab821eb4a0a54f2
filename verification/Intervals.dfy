/** Ranges of lines, and lists of ranges kept sorted and apart. */
module Intervals {
  import opened Common
  import StableSort

  /** The lines `start` to `end`, both included; none when `end < start`. */
  datatype Span = Span(start: nat, end: nat)

  predicate Hides(s: Span, n: nat) {
    s.start <= n <= s.end
  }

  ghost predicate Covers(spans: seq<Span>, n: nat) {
    exists s :: s in spans && Hides(s, n)
  }

  ghost predicate SameCover(a: seq<Span>, b: seq<Span>) {
    forall n: nat :: Covers(a, n) <==> Covers(b, n)
  }

  predicate Le(a: Span, b: Span) {
    a.start < b.start || (a.start == b.start && a.end <= b.end)
  }

  predicate Sorted(s: seq<Span>) {
    forall i, j :: 0 <= i < j < |s| ==> Le(s[i], s[j])
  }

  /** In order, with at least one line between neighbours. */
  predicate Spaced(s: seq<Span>) {
    && (forall i :: 0 <= i < |s| ==> s[i].start <= s[i].end + 1)
    && (forall i :: 0 < i < |s| ==> s[i - 1].end + 1 < s[i].start)
  }

  predicate NonEmpty(s: seq<Span>) {
    forall i :: 0 <= i < |s| ==> s[i].start <= s[i].end
  }

  predicate Separated(s: seq<Span>) {
    Spaced(s) && NonEmpty(s)
  }

  // ---------- Sorting ----------

  function Sort(s: seq<Span>): seq<Span> {
    StableSort.Sort(s, Le)
  }

  lemma SortSorted(s: seq<Span>)
    ensures Sorted(Sort(s)) && forall y :: y in Sort(s) <==> y in s
  {
    StableSort.SortInOrder(s, Le);
  }

  lemma SortCovers(s: seq<Span>)
    ensures SameCover(Sort(s), s)
  {
    SortSorted(s);
    forall n: nat ensures Covers(Sort(s), n) <==> Covers(s, n) { }
  }

  // ---------- Covering ----------

  lemma CoversMore(spans: seq<Span>, x: Span, n: nat)
    ensures Covers(spans + [x], n) <==> Covers(spans, n) || Hides(x, n)
  {
    if Hides(x, n) { assert x in spans + [x]; }
    if Covers(spans, n) {
      var s :| s in spans && Hides(s, n);
      assert s in spans + [x];
    }
  }

  lemma CoverIndex(spans: seq<Span>, n: nat) returns (i: nat)
    requires Covers(spans, n)
    ensures i < |spans| && Hides(spans[i], n)
  {
    var s :| s in spans && Hides(s, n);
    i :| 0 <= i < |spans| && spans[i] == s;
  }

  lemma CoversOwn(spans: seq<Span>, i: nat, n: nat)
    requires i < |spans| && Hides(spans[i], n)
    ensures Covers(spans, n)
  {
    assert spans[i] in spans;
  }

  lemma {:induction false} EndsGrow(spans: seq<Span>, i: nat, j: nat)
    requires Spaced(spans) && i < j < |spans|
    ensures spans[i].end + 1 < spans[j].start
    decreases j
  {
    if i < j - 1 { EndsGrow(spans, i, j - 1); }
  }

  // ---------- Merging ----------

  /** One step of a merge: widen the last span if the next one touches it. */
  function Merge(merged: seq<Span>, x: Span): seq<Span> {
    var k := |merged| - 1;
    if merged != [] && x.start <= merged[k].end + 1
    then merged[k := Span(merged[k].start, Max(merged[k].end, x.end))]
    else merged + [x]
  }

  ghost predicate Starts(merged: seq<Span>, x: Span) {
    merged != [] ==> merged[|merged| - 1].start <= x.start
  }

  lemma Widen(merged: seq<Span>, x: Span, n: nat)
    requires merged != [] && x.start <= x.end && Starts(merged, x) && x.start <= merged[|merged| - 1].end + 1
    ensures var last := merged[|merged| - 1];
            Covers(merged[|merged| - 1 := Span(last.start, Max(last.end, x.end))], n)
            <==> Covers(merged, n) || Hides(x, n)
  {
    var k := |merged| - 1;
    var wide := Span(merged[k].start, Max(merged[k].end, x.end));
    assert merged == merged[..k] + [merged[k]] && merged[k := wide] == merged[..k] + [wide];
    CoversMore(merged[..k], merged[k], n);
    CoversMore(merged[..k], wide, n);
  }

  lemma MergeCovers(merged: seq<Span>, seen: seq<Span>, x: Span)
    requires SameCover(merged, seen) && x.start <= x.end && Starts(merged, x)
    ensures SameCover(Merge(merged, x), seen + [x])
  {
    forall n: nat ensures Covers(Merge(merged, x), n) <==> Covers(seen + [x], n) {
      CoversMore(seen, x, n);
      if merged != [] && x.start <= merged[|merged| - 1].end + 1 {
        Widen(merged, x, n);
      } else {
        CoversMore(merged, x, n);
      }
    }
  }

  lemma MergeSeparated(merged: seq<Span>, x: Span)
    requires Separated(merged) && x.start <= x.end && Starts(merged, x)
    ensures Separated(Merge(merged, x))
    ensures forall y: Span :: Le(x, y) ==> Starts(Merge(merged, x), y)
  {
  }

  // ---------- What separation is good for ----------

  lemma {:induction false} AlongStretch(spans: seq<Span>, i: nat, a: nat, b: nat)
    requires Spaced(spans) && i < |spans| && Hides(spans[i], a) && a <= b
    requires forall n: nat :: a <= n <= b ==> Covers(spans, n)
    ensures Hides(spans[i], b)
    decreases b
  {
    if a < b {
      AlongStretch(spans, i, a, b - 1);
      var j := CoverIndex(spans, b);
      if i < j { EndsGrow(spans, i, j); }
      if j < i { EndsGrow(spans, j, i); }
    }
  }

  /** A stretch of covered lines lies within one span. */
  lemma StretchInOne(spans: seq<Span>, a: nat, b: nat) returns (i: nat)
    requires Spaced(spans) && a <= b
    requires forall n: nat :: a <= n <= b ==> Covers(spans, n)
    ensures i < |spans| && spans[i].start <= a && b <= spans[i].end
  {
    i := CoverIndex(spans, a);
    AlongStretch(spans, i, a, b);
  }

  predicate Contained(x: Span, ivs: seq<Span>) {
    exists y <- ivs :: y.start <= x.start && x.end <= y.end
  }

  ghost predicate AllCovered(x: Span, ivs: seq<Span>) {
    forall n: nat :: Hides(x, n) ==> Covers(ivs, n)
  }

  /** On separated ranges the one-range test misses nothing. */
  lemma ContainedIffCovered(x: Span, ivs: seq<Span>)
    requires Spaced(ivs) && x.start <= x.end
    ensures Contained(x, ivs) <==> AllCovered(x, ivs)
  {
    if AllCovered(x, ivs) {
      forall n: nat | x.start <= n <= x.end ensures Covers(ivs, n) { assert Hides(x, n); }
      var i := StretchInOne(ivs, x.start, x.end);
      assert ivs[i] in ivs;
    }
    if Contained(x, ivs) {
      var y :| y in ivs && y.start <= x.start && x.end <= y.end;
      forall n: nat | Hides(x, n) ensures Covers(ivs, n) { assert Hides(y, n); }
    }
  }

  lemma CoversCat(a: seq<Span>, b: seq<Span>, n: nat)
    ensures Covers(a + b, n) <==> Covers(a, n) || Covers(b, n)
  {
    if Covers(a, n) {
      var s :| s in a && Hides(s, n);
      assert s in a + b;
    }
    if Covers(b, n) {
      var s :| s in b && Hides(s, n);
      assert s in a + b;
    }
  }

  lemma CoverSameAll(x: Span, a: seq<Span>, b: seq<Span>)
    requires SameCover(a, b)
    ensures AllCovered(x, a) <==> AllCovered(x, b)
  {
  }

  // ---------- Sets of lines ----------

  function LinesOf(s: Span): set<nat> {
    set n: nat | n <= s.end && Hides(s, n)
  }

  lemma {:induction false} LinesCard(s: Span)
    requires s.start <= s.end
    ensures |LinesOf(s)| == s.end - s.start + 1
    decreases s.end
  {
    if s.start == s.end {
      forall n: nat ensures n in LinesOf(s) <==> n == s.end { assert Hides(s, n) <==> n == s.end; }
      assert LinesOf(s) == {s.end};
    } else {
      LinesCard(s.(end := s.end - 1));
      var shorter := s.(end := s.end - 1);
      forall n: nat ensures n in LinesOf(s) <==> n in LinesOf(shorter) + {s.end} {
        assert Hides(s, n) <==> Hides(shorter, n) || n == s.end;
      }
      assert LinesOf(s) == LinesOf(shorter) + {s.end};
    }
  }

  /** All lines of a list of ranges. */
  function LineSet(spans: seq<Span>): set<nat> {
    if spans == [] then {} else LineSet(spans[..|spans| - 1]) + LinesOf(spans[|spans| - 1])
  }

  function CountLines(spans: seq<Span>): int {
    if spans == [] then 0
    else
      var x := spans[|spans| - 1];
      CountLines(spans[..|spans| - 1]) + x.end - x.start + 1
  }

  lemma {:induction false} InLineSet(spans: seq<Span>, n: nat)
    ensures n in LineSet(spans) <==> Covers(spans, n)
    decreases spans
  {
    if spans != [] {
      var k := |spans| - 1;
      InLineSet(spans[..k], n);
      InitAndLast(spans);
      CoversMore(spans[..k], spans[k], n);
    }
  }

  /** In order, none empty, none overlapping; neighbours may touch. */
  predicate Ascending(s: seq<Span>) {
    && (forall i :: 0 <= i < |s| ==> s[i].start <= s[i].end)
    && (forall i :: 0 < i < |s| ==> s[i - 1].end < s[i].start)
  }

  lemma {:induction false} LaterStarts(s: seq<Span>, i: nat, j: nat)
    requires Ascending(s) && i < j < |s|
    ensures s[i].end < s[j].start
    decreases j
  {
    if i < j - 1 { LaterStarts(s, i, j - 1); }
  }

  /** Ranges in order count every line of theirs once. */
  lemma {:induction false} AscendingCount(spans: seq<Span>)
    requires Ascending(spans)
    ensures CountLines(spans) == |LineSet(spans)|
    decreases spans
  {
    if spans != [] {
      var k := |spans| - 1;
      var init, x := spans[..k], spans[k];
      AscendingCount(init);
      LinesCard(x);
      forall n <- LinesOf(x) ensures n !in LineSet(init) {
        InLineSet(init, n);
        if Covers(init, n) {
          var i := CoverIndex(init, n);
          LaterStarts(spans, i, k);
        }
      }
    }
  }
}

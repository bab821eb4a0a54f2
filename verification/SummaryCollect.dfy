/** Which regions of a syntax tree a summary can fold: `collect_elidable_tree` and
    `flush_groupable_run` of crates/pi-ast/src/summary.rs, and exactly when the spans they
    record are well nested. */
module SummaryCollect {
  import opened Common
  import opened Intervals
  import opened SummaryForest

  /** A syntax node: what its kind is good for, its first and last line, and the last line that
      holds a byte of it (one less than `end` when the node ends in a newline). */
  datatype Node = Node(comment: bool, elidable: bool, groupable: bool,
                       start: nat, end: nat, contentEnd: nat, children: seq<Node>)

  type U32 = n: nat | n <= MAX

  /** The least number of lines of a body and of a comment that is folded. */
  datatype Sizes = Sizes(body: U32, comment: U32)

  /** Nodes lie inside their parent; siblings come in order and share at most a line; the
      statements that form runs are not empty. */
  predicate WellPlaced(n: Node) {
    && 1 <= n.start <= n.end && (n.contentEnd == n.end || n.contentEnd + 1 == n.end) && (n.groupable ==> n.start <= n.contentEnd)
    && Ordered(n.children)
    && forall c <- n.children :: n.start <= c.start && c.end <= n.end && WellPlaced(c)
  }

  predicate Ordered(ns: seq<Node>) {
    forall i, j :: 0 <= i < j < |ns| ==> ns[i].end <= ns[j].start
  }

  function LineCount(first: nat, last: nat): nat {
    SatAdd(SatSub(last, first), 1)
  }

  // ---------- Runs of groupable siblings ----------

  /** Where the run that reaches up to child `i` began. */
  function OpenRun(cs: seq<Node>, i: nat): (s: Option<nat>)
    requires i <= |cs|
    ensures s.Some? ==> s.value < i
  {
    if i == 0 || !cs[i - 1].groupable then None
    else
      var before := OpenRun(cs, i - 1);
      if before.Some? then before else Some(i - 1)
  }

  datatype Run = Run(from: nat, to: nat)

  function Ending(cs: seq<Node>, i: nat): (r: seq<Run>)
    requires i <= |cs|
    ensures forall x <- r :: x.from < x.to == i
  {
    var s := OpenRun(cs, i);
    if s.Some? then [Run(s.value, i)] else []
  }

  /** The runs that have ended before child `i`. */
  function ClosedRuns(cs: seq<Node>, i: nat): (r: seq<Run>)
    requires i <= |cs|
    ensures forall x <- r :: x.from < x.to < i
  {
    if i == 0 then []
    else if cs[i - 1].groupable then ClosedRuns(cs, i - 1)
    else ClosedRuns(cs, i - 1) + Ending(cs, i - 1)
  }

  predicate ValidRuns(cs: seq<Node>, runs: seq<Run>) {
    forall x <- runs :: x.from < x.to <= |cs|
  }

  function AllRuns(cs: seq<Node>): (r: seq<Run>)
    ensures ValidRuns(cs, r)
  {
    ClosedRuns(cs, |cs|) + Ending(cs, |cs|)
  }

  /** What a run folds: everything between its first and its last statement. */
  function RunSpan(first: Node, last: Node, count: nat, o: Sizes): Option<Span> {
    if count < 2 || LineCount(first.start, last.end) < o.body then None
    else
      var start := Min(first.contentEnd, SatSub(last.start, 1)) + 1;
      var end := SatSub(last.start, 1);
      if start <= end then Some(Span(start, end)) else None
  }

  function RunFold(cs: seq<Node>, r: Run, o: Sizes): Option<Span>
    requires r.from < r.to <= |cs|
  {
    RunSpan(cs[r.from], cs[r.to - 1], r.to - r.from, o)
  }

  /** Runs among the first `upto` children, in order: each begins with a groupable child and
      ends before the next begins. */
  ghost predicate RunsOf(cs: seq<Node>, runs: seq<Run>, upto: nat) {
    runs != [] ==>
      var k := |runs| - 1;
      && runs[k].from < runs[k].to <= upto <= |cs| && cs[runs[k].from].groupable
      && RunsOf(cs, runs[..k], runs[k].from)
  }

  lemma {:induction false} RunsOfLess(cs: seq<Node>, runs: seq<Run>, a: nat, b: nat)
    requires RunsOf(cs, runs, a) && a <= b <= |cs|
    ensures RunsOf(cs, runs, b)
  {
  }

  lemma {:induction false} RunsAreRuns(cs: seq<Node>, i: nat)
    requires i <= |cs|
    ensures OpenRun(cs, i).Some? ==> cs[OpenRun(cs, i).value].groupable
    ensures RunsOf(cs, ClosedRuns(cs, i), if OpenRun(cs, i).Some? then OpenRun(cs, i).value else i)
    ensures RunsOf(cs, ClosedRuns(cs, i) + Ending(cs, i), i)
    decreases i
  {
    if i > 0 {
      RunsAreRuns(cs, i - 1);
      if !cs[i - 1].groupable { RunsOfLess(cs, ClosedRuns(cs, i), i - 1, i); }
    }
    var closed := ClosedRuns(cs, i);
    if OpenRun(cs, i).Some? {
      assert (closed + Ending(cs, i))[..|closed|] == closed;
    } else {
      assert closed + Ending(cs, i) == closed;
    }
  }

  // ---------- The spans of a tree ----------

  datatype SpanTree = SpanTree(span: Span, kids: seq<SpanTree>)

  function RunSpans(cs: seq<Node>, runs: seq<Run>, o: Sizes): seq<SpanTree>
    requires ValidRuns(cs, runs)
  {
    if runs == [] then []
    else
      var k := |runs| - 1;
      RunSpans(cs, runs[..k], o)
      + match RunFold(cs, runs[k], o) { case Some(s) => [SpanTree(s, [])] case None => [] }
  }

  function CommentSpan(n: Node, o: Sizes): Option<Span> {
    if LineCount(n.start, n.end) >= o.comment && n.start + 2 <= SatSub(n.end, 1)
    then Some(Span(n.start + 2, SatSub(n.end, 1)))
    else None
  }

  function BodySpan(n: Node, o: Sizes): Option<Span> {
    if n.elidable && LineCount(n.start, n.end) >= o.body && n.start + 1 <= SatSub(n.end, 1)
    then Some(Span(n.start + 1, SatSub(n.end, 1)))
    else None
  }

  function Spans(n: Node, o: Sizes): seq<SpanTree>
    decreases n, 1
  {
    if n.comment then
      match CommentSpan(n, o) { case Some(s) => [SpanTree(s, [])] case None => [] }
    else
      var below := RecordedBelow(n, o);
      match BodySpan(n, o) { case Some(s) => [SpanTree(s, below)] case None => below }
  }

  function RecordedBelow(n: Node, o: Sizes): seq<SpanTree>
    decreases n, 0
  {
    RunSpans(n.children, AllRuns(n.children), o) + SpansOfAll(n.children, o)
  }

  function SpansOfAll(ns: seq<Node>, o: Sizes): seq<SpanTree>
    decreases ns
  {
    if ns == [] then [] else Spans(ns[0], o) + SpansOfAll(ns[1..], o)
  }

  // ---------- When they are well nested ----------

  ghost predicate Disjoint(a: SpanTree, b: SpanTree) {
    Apart(a.span, b.span)
  }

  ghost predicate PairsApart(ts: seq<SpanTree>) {
    forall i, j :: 0 <= i < j < |ts| ==> Disjoint(ts[i], ts[j])
  }

  ghost predicate Cross(a: seq<SpanTree>, b: seq<SpanTree>) {
    forall i, j :: 0 <= i < |a| && 0 <= j < |b| ==> Disjoint(a[i], b[j])
  }

  ghost predicate Deep(t: SpanTree) {
    PairsApart(t.kids) && forall k <- t.kids :: Within(k.span, t.span) && Deep(k)
  }

  /** No two spans of the forest overlap unless one is below the other, and inside it. */
  ghost predicate Tidy(ts: seq<SpanTree>) {
    PairsApart(ts) && DeepAll(ts)
  }

  ghost predicate DeepAll(ts: seq<SpanTree>) {
    forall t <- ts :: Deep(t)
  }

  /** A run that is folded has something to fold inside a statement that is neither its first
      nor its last. */
  ghost predicate BadRun(cs: seq<Node>, o: Sizes) {
    exists r, m: nat | r in AllRuns(cs) && r.from < m < r.to - 1 ::
      RunFold(cs, r, o).Some? && Spans(cs[m], o) != []
  }

  ghost predicate Clean(n: Node, o: Sizes) {
    n.comment || (!BadRun(n.children, o) && forall c <- n.children :: Clean(c, o))
  }

  predicate Confined(t: SpanTree, first: nat, last: nat) {
    first < t.span.start <= t.span.end < last
  }

  ghost predicate AllConfined(ts: seq<SpanTree>, first: nat, last: nat) {
    forall t <- ts :: Confined(t, first, last)
  }

  lemma PairsCat(a: seq<SpanTree>, b: seq<SpanTree>)
    ensures PairsApart(a + b) <==> PairsApart(a) && PairsApart(b) && Cross(a, b)
  {
    var ab := a + b;
    if PairsApart(ab) {
      forall i, j | 0 <= i < j < |a| ensures Disjoint(a[i], a[j]) { assert Disjoint(ab[i], ab[j]); }
      forall i, j | 0 <= i < j < |b| ensures Disjoint(b[i], b[j]) { assert Disjoint(ab[|a| + i], ab[|a| + j]); }
      forall i, j | 0 <= i < |a| && 0 <= j < |b| ensures Disjoint(a[i], b[j]) { assert Disjoint(ab[i], ab[|a| + j]); }
    }
  }

  lemma DeepCat(a: seq<SpanTree>, b: seq<SpanTree>)
    ensures DeepAll(a + b) <==> DeepAll(a) && DeepAll(b)
  {
    if DeepAll(a + b) {
      forall t <- a ensures Deep(t) { assert t in a + b; }
      forall t <- b ensures Deep(t) { assert t in a + b; }
    }
  }

  lemma ConfinedCat(a: seq<SpanTree>, b: seq<SpanTree>, first: nat, last: nat)
    requires AllConfined(a, first, last) && AllConfined(b, first, last)
    ensures AllConfined(a + b, first, last)
  {
  }

  lemma {:induction false} RunFoldConfined(n: Node, r: Run, o: Sizes)
    requires WellPlaced(n) && r.from < r.to <= |n.children| && n.children[r.from].groupable
    requires RunFold(n.children, r, o).Some?
    ensures Confined(SpanTree(RunFold(n.children, r, o).value, []), n.start, n.end)
    ensures var s := RunFold(n.children, r, o).value;
            n.children[r.from].contentEnd < s.start && s.end < n.children[r.to - 1].start
  {
    var a, b := n.children[r.from], n.children[r.to - 1];
    assert a in n.children && b in n.children;
    assert a.end <= b.start;
  }

  lemma {:induction false} RunsConfined(n: Node, runs: seq<Run>, upto: nat, o: Sizes)
    requires WellPlaced(n) && RunsOf(n.children, runs, upto) && ValidRuns(n.children, runs)
    ensures AllConfined(RunSpans(n.children, runs, o), n.start, n.end)
    decreases runs
  {
    if runs != [] {
      var k := |runs| - 1;
      RunsConfined(n, runs[..k], runs[k].from, o);
      if RunFold(n.children, runs[k], o).Some? { RunFoldConfined(n, runs[k], o); }
    }
  }

  lemma Loosen(ts: seq<SpanTree>, a: nat, b: nat, first: nat, last: nat)
    requires AllConfined(ts, a, b) && first <= a && b <= last
    ensures AllConfined(ts, first, last)
  {
  }

  lemma {:induction false} SpansConfined(n: Node, o: Sizes)
    requires WellPlaced(n)
    ensures AllConfined(Spans(n, o), n.start, n.end)
    decreases n
  {
    if !n.comment {
      RunsAreRuns(n.children, |n.children|);
      RunsConfined(n, AllRuns(n.children), |n.children|, o);
      ChildrenConfined(n.children, o, n.start, n.end);
      ConfinedCat(RunSpans(n.children, AllRuns(n.children), o), SpansOfAll(n.children, o), n.start, n.end);
    }
  }

  lemma {:induction false} ChildrenConfined(ns: seq<Node>, o: Sizes, first: nat, last: nat)
    requires forall c <- ns :: first <= c.start && c.end <= last && WellPlaced(c)
    ensures AllConfined(SpansOfAll(ns, o), first, last)
    decreases ns
  {
    if ns != [] {
      SpansConfined(ns[0], o);
      Loosen(Spans(ns[0], o), ns[0].start, ns[0].end, first, last);
      ChildrenConfined(ns[1..], o, first, last);
      ConfinedCat(Spans(ns[0], o), SpansOfAll(ns[1..], o), first, last);
    }
  }

  /** Spans of different children never overlap. */
  lemma {:induction false} ChildrenTidy(ns: seq<Node>, o: Sizes)
    requires Ordered(ns) && forall c <- ns :: WellPlaced(c)
    ensures Tidy(SpansOfAll(ns, o)) <==> forall c <- ns :: Tidy(Spans(c, o))
    decreases ns
  {
    if ns != [] {
      var head, tail := Spans(ns[0], o), SpansOfAll(ns[1..], o);
      ChildrenTidy(ns[1..], o);
      SpansConfined(ns[0], o);
      assert ns[0] in ns && ns == [ns[0]] + ns[1..];
      if |ns| > 1 {
        TailAfter(ns, o);
        OneAfterOther(head, tail, ns[0].start, ns[0].end);
      }
      PairsCat(head, tail);
      DeepCat(head, tail);
    }
  }

  ghost predicate AllAfter(ts: seq<SpanTree>, first: nat) {
    forall t <- ts :: first < t.span.start
  }

  lemma {:induction false} TailAfter(ns: seq<Node>, o: Sizes)
    requires |ns| > 1 && Ordered(ns) && forall c <- ns :: WellPlaced(c)
    ensures AllAfter(SpansOfAll(ns[1..], o), ns[0].end)
  {
    forall c <- ns[1..] ensures ns[0].end <= c.start && c.end <= ns[|ns| - 1].end && WellPlaced(c) {
      var i :| 0 <= i < |ns[1..]| && ns[1..][i] == c;
      assert ns[i + 1] in ns && ns[|ns| - 1] in ns;
    }
    ChildrenConfined(ns[1..], o, ns[0].end, ns[|ns| - 1].end);
  }

  lemma OneAfterOther(a: seq<SpanTree>, b: seq<SpanTree>, first: nat, last: nat)
    requires AllConfined(a, first, last) && AllAfter(b, last)
    ensures Cross(a, b)
  {
    forall i, j | 0 <= i < |a| && 0 <= j < |b| ensures Disjoint(a[i], b[j]) {
      assert a[i] in a && b[j] in b;
    }
  }

  // ---------- Runs beside children ----------

  ghost predicate Leaves(ts: seq<SpanTree>, first: nat) {
    forall t <- ts :: t.kids == [] && t.span.end < first
  }

  lemma RunAlone(ts: seq<SpanTree>, s: Span, first: nat, before: nat)
    requires Leaves(ts, first) && Tidy(ts) && first <= s.start && s.end < before && first <= before
    ensures Tidy(ts + [SpanTree(s, [])]) && Leaves(ts + [SpanTree(s, [])], before)
  {
    forall i | 0 <= i < |ts| ensures Disjoint(ts[i], SpanTree(s, [])) { assert ts[i] in ts; }
  }

  lemma {:induction false} RunsTidy(n: Node, runs: seq<Run>, upto: nat, o: Sizes, before: nat)
    requires WellPlaced(n) && RunsOf(n.children, runs, upto) && ValidRuns(n.children, runs)
    requires forall j :: 0 <= j < |n.children| && j < upto ==> n.children[j].start <= before
    ensures Tidy(RunSpans(n.children, runs, o)) && Leaves(RunSpans(n.children, runs, o), before)
    decreases runs
  {
    if runs != [] {
      var k := |runs| - 1;
      var r := runs[k];
      var first := n.children[r.from];
      assert first in n.children;
      forall j | 0 <= j < |n.children| && j < r.from ensures n.children[j].start <= first.start {
        StartsInOrder(n.children, j, r.from);
      }
      RunsTidy(n, runs[..k], r.from, o, first.start);
      var ts := RunSpans(n.children, runs[..k], o);
      if RunFold(n.children, r, o).Some? {
        RunFoldConfined(n, r, o);
        RunAlone(ts, RunFold(n.children, r, o).value, first.start, before);
      } else {
        assert first.start <= before;
      }
    }
  }

  lemma StartsInOrder(cs: seq<Node>, i: nat, j: nat)
    requires Ordered(cs) && i <= j < |cs| && forall c <- cs :: WellPlaced(c)
    ensures cs[i].start <= cs[j].start
  {
    assert cs[i] in cs;
  }

  /** A run's fold misses the spans of every statement but those inside the run. */
  lemma {:induction false} RunAgainstChild(n: Node, r: Run, m: nat, t: SpanTree, o: Sizes)
    requires WellPlaced(n) && r.from < r.to <= |n.children| && m < |n.children|
    requires RunFold(n.children, r, o).Some? && t in Spans(n.children[m], o)
    requires n.children[r.from].groupable
    ensures Apart(RunFold(n.children, r, o).value, t.span) <==> !(r.from < m < r.to - 1)
  {
    var c := n.children[m];
    assert c in n.children && n.children[r.from] in n.children && n.children[r.to - 1] in n.children;
    SpansConfined(c, o);
    RunFoldConfined(n, r, o);
  }

  lemma {:induction false} RunsOfMember(cs: seq<Node>, runs: seq<Run>, upto: nat, r: Run)
    requires RunsOf(cs, runs, upto) && r in runs
    ensures r.from < |cs| && cs[r.from].groupable
    decreases runs
  {
    var k := |runs| - 1;
    InitAndLast(runs);
    if r != runs[k] { RunsOfMember(cs, runs[..k], runs[k].from, r); }
  }

  lemma {:induction false} FromRun(cs: seq<Node>, runs: seq<Run>, o: Sizes, t: SpanTree) returns (r: Run)
    requires ValidRuns(cs, runs) && t in RunSpans(cs, runs, o)
    ensures r in runs && RunFold(cs, r, o) == Some(t.span)
    decreases runs
  {
    var k := |runs| - 1;
    if t in RunSpans(cs, runs[..k], o) {
      r := FromRun(cs, runs[..k], o, t);
    } else {
      r := runs[k];
    }
  }

  lemma {:induction false} RunIsIn(cs: seq<Node>, runs: seq<Run>, o: Sizes, r: Run)
    requires ValidRuns(cs, runs) && r in runs && RunFold(cs, r, o).Some?
    ensures SpanTree(RunFold(cs, r, o).value, []) in RunSpans(cs, runs, o)
    decreases runs
  {
    var k := |runs| - 1;
    InitAndLast(runs);
    if r != runs[k] { RunIsIn(cs, runs[..k], o, r); }
  }

  lemma {:induction false} FromChild(ns: seq<Node>, o: Sizes, t: SpanTree) returns (m: nat)
    requires t in SpansOfAll(ns, o)
    ensures m < |ns| && t in Spans(ns[m], o)
    decreases ns
  {
    if t in Spans(ns[0], o) {
      m := 0;
    } else {
      m := FromChild(ns[1..], o, t);
      m := m + 1;
    }
  }

  lemma {:induction false} ChildIsIn(ns: seq<Node>, o: Sizes, m: nat, t: SpanTree)
    requires m < |ns| && t in Spans(ns[m], o)
    ensures t in SpansOfAll(ns, o)
    decreases ns
  {
    if m > 0 { ChildIsIn(ns[1..], o, m - 1, t); }
  }

  lemma {:induction false} CrossUnlessBad(n: Node, o: Sizes)
    requires WellPlaced(n) && !BadRun(n.children, o)
    ensures Cross(RunSpans(n.children, AllRuns(n.children), o), SpansOfAll(n.children, o))
  {
    var cs := n.children;
    var runs, below := RunSpans(cs, AllRuns(cs), o), SpansOfAll(cs, o);
    RunsAreRuns(cs, |cs|);
    forall i, j | 0 <= i < |runs| && 0 <= j < |below| ensures Disjoint(runs[i], below[j]) {
      var r := FromRun(cs, AllRuns(cs), o, runs[i]);
      var m := FromChild(cs, o, below[j]);
      RunsOfMember(cs, AllRuns(cs), |cs|, r);
      RunAgainstChild(n, r, m, below[j], o);
    }
  }

  lemma OverlapMeansNoCross(a: seq<SpanTree>, b: seq<SpanTree>, x: SpanTree, y: SpanTree)
    requires x in a && y in b && !Disjoint(x, y)
    ensures !Cross(a, b)
  {
    var i :| 0 <= i < |a| && a[i] == x;
    var j :| 0 <= j < |b| && b[j] == y;
  }

  lemma {:induction false} BadRunOverlaps(n: Node, o: Sizes, r: Run, m: nat)
    requires WellPlaced(n) && r in AllRuns(n.children) && r.from < m < r.to - 1
    requires RunFold(n.children, r, o).Some? && Spans(n.children[m], o) != []
    ensures !Cross(RunSpans(n.children, AllRuns(n.children), o), SpansOfAll(n.children, o))
  {
    var cs := n.children;
    var a, t := SpanTree(RunFold(cs, r, o).value, []), Spans(cs[m], o)[0];
    RunsAreRuns(cs, |cs|);
    RunsOfMember(cs, AllRuns(cs), |cs|, r);
    RunAgainstChild(n, r, m, t, o);
    RunIsIn(cs, AllRuns(cs), o, r);
    ChildIsIn(cs, o, m, t);
    OverlapMeansNoCross(RunSpans(cs, AllRuns(cs), o), SpansOfAll(cs, o), a, t);
  }

  lemma WithinConfined(ts: seq<SpanTree>, s: Span, first: nat, last: nat)
    requires AllConfined(ts, first, last) && s == Span(first + 1, SatSub(last, 1))
    ensures Tidy([SpanTree(s, ts)]) <==> Tidy(ts)
  {
    var t := SpanTree(s, ts);
    forall k <- ts ensures Within(k.span, s) { assert Confined(k, first, last); }
    assert Deep(t) <==> Tidy(ts);
    assert t in [t];
  }

  lemma {:induction false} BelowTidy(n: Node, o: Sizes)
    requires WellPlaced(n)
    ensures Tidy(RecordedBelow(n, o)) <==> !BadRun(n.children, o) && forall c <- n.children :: Tidy(Spans(c, o))
  {
    var cs := n.children;
    var runs, kids := RunSpans(cs, AllRuns(cs), o), SpansOfAll(cs, o);
    ChildrenTidy(cs, o);
    RunsAreRuns(cs, |cs|);
    StartsBounded(n);
    RunsTidy(n, AllRuns(cs), |cs|, o, n.end);
    CrossIff(n, o);
    PairsCat(runs, kids);
    DeepCat(runs, kids);
  }

  lemma {:induction false} CrossIff(n: Node, o: Sizes)
    requires WellPlaced(n)
    ensures Cross(RunSpans(n.children, AllRuns(n.children), o), SpansOfAll(n.children, o))
       <==> !BadRun(n.children, o)
  {
    if BadRun(n.children, o) {
      var r, m: nat :| r in AllRuns(n.children) && r.from < m < r.to - 1
        && RunFold(n.children, r, o).Some? && Spans(n.children[m], o) != [];
      BadRunOverlaps(n, o, r, m);
    } else {
      CrossUnlessBad(n, o);
    }
  }

  lemma {:induction false} BelowConfined(n: Node, o: Sizes)
    requires WellPlaced(n)
    ensures AllConfined(RecordedBelow(n, o), n.start, n.end)
  {
    RunsAreRuns(n.children, |n.children|);
    RunsConfined(n, AllRuns(n.children), |n.children|, o);
    ChildrenConfined(n.children, o, n.start, n.end);
    ConfinedCat(RunSpans(n.children, AllRuns(n.children), o), SpansOfAll(n.children, o), n.start, n.end);
  }

  /** What is recorded below a node is well nested if and only if no folded run hides something
      foldable in its middle, here or further down. */
  lemma {:induction false} TidyIffClean(n: Node, o: Sizes)
    requires WellPlaced(n)
    ensures Tidy(Spans(n, o)) <==> Clean(n, o)
    decreases n
  {
    if n.comment {
      assert Tidy(Spans(n, o));
    } else {
      forall c <- n.children ensures Tidy(Spans(c, o)) <==> Clean(c, o) { TidyIffClean(c, o); }
      BelowTidy(n, o);
      BodyTidy(n, o);
    }
  }

  /** Wrapping what is below in the node's own span changes nothing. */
  lemma {:induction false} BodyTidy(n: Node, o: Sizes)
    requires WellPlaced(n) && !n.comment
    ensures Tidy(Spans(n, o)) <==> Tidy(RecordedBelow(n, o))
  {
    if BodySpan(n, o).Some? {
      BelowConfined(n, o);
      WithinConfined(RecordedBelow(n, o), BodySpan(n, o).value, n.start, n.end);
    }
  }

  lemma {:induction false} StartsBounded(n: Node)
    requires WellPlaced(n)
    ensures forall j :: 0 <= j < |n.children| ==> n.children[j].start <= n.end
  {
    forall j | 0 <= j < |n.children| ensures n.children[j].start <= n.end {
      assert n.children[j] in n.children;
    }
  }
}

/** Which lines of a file a summary may hide, told from the syntax tree alone:
    `collect_elidable_tree` and `flush_groupable_run` of crates/pi-ast/src/summary.rs. */
module SummaryReasons {
  import opened Common
  import opened Intervals
  import opened SummaryForest
  import opened SummaryCollect

  // ---------- The three reasons ----------

  /** Behind the second line of a long comment and before its last. */
  predicate InComment(n: Node, o: Sizes, l: nat) {
    n.comment && n.end - n.start + 1 >= o.comment && n.start + 1 < l < n.end
  }

  /** Strictly between the first and the last line of a long node of a kind that can be folded. */
  predicate InBody(n: Node, o: Sizes, l: nat) {
    !n.comment && n.elidable && n.end - n.start + 1 >= o.body && n.start < l < n.end
  }

  /** Children `i` to `j` are groupable and no neighbour of theirs is. */
  predicate WholeRun(cs: seq<Node>, i: nat, j: nat) {
    && i < j < |cs| && (forall k :: i <= k <= j ==> cs[k].groupable)
    && (i > 0 ==> !cs[i - 1].groupable) && (j + 1 < |cs| ==> !cs[j + 1].groupable)
  }

  /** Between the first and the last statement of a long run of at least two. */
  predicate BetweenStatements(cs: seq<Node>, i: nat, j: nat, o: Sizes, l: nat) {
    WholeRun(cs, i, j) && cs[j].end - cs[i].start + 1 >= o.body && cs[i].contentEnd < l < cs[j].start
  }

  ghost predicate InRun(n: Node, o: Sizes, l: nat) {
    !n.comment && exists i: nat, j: nat :: BetweenStatements(n.children, i, j, o, l)
  }

  ghost predicate Reason(n: Node, o: Sizes, l: nat) {
    InComment(n, o, l) || InBody(n, o, l) || InRun(n, o, l)
  }

  /** The line has a reason in the tree; below a comment nothing is looked at. */
  ghost predicate MayFold(n: Node, o: Sizes, l: nat) {
    Reason(n, o, l) || (!n.comment && exists c :: c in n.children && MayFold(c, o, l))
  }

  // ---------- Runs ----------

  /** The run that ends before child `i` begins where the last stretch of groupable ones does. */
  lemma {:induction false} OpenRunIs(cs: seq<Node>, i: nat)
    requires i <= |cs|
    ensures OpenRun(cs, i).Some? ==>
              var s := OpenRun(cs, i).value;
              s < i && (forall k :: s <= k < i ==> cs[k].groupable) && (s > 0 ==> !cs[s - 1].groupable)
    ensures OpenRun(cs, i).None? <==> i == 0 || !cs[i - 1].groupable
    decreases i
  {
    if i > 0 { OpenRunIs(cs, i - 1); }
  }

  ghost predicate RunEndsAt(cs: seq<Node>, r: Run) {
    r.from < r.to <= |cs| && OpenRun(cs, r.to) == Some(r.from) && (r.to < |cs| ==> !cs[r.to].groupable)
  }

  lemma {:induction false} ClosedRunsAre(cs: seq<Node>, i: nat, r: Run)
    requires i <= |cs|
    ensures r in ClosedRuns(cs, i) <==> r.to < i && RunEndsAt(cs, r)
    decreases i
  {
    if i > 0 { ClosedRunsAre(cs, i - 1, r); }
  }

  lemma AllRunsAre(cs: seq<Node>, r: Run)
    ensures r in AllRuns(cs) <==> RunEndsAt(cs, r)
  {
    ClosedRunsAre(cs, |cs|, r);
  }

  lemma RunIsWhole(cs: seq<Node>, r: Run)
    requires r.to - r.from >= 2
    ensures RunEndsAt(cs, r) <==> WholeRun(cs, r.from, r.to - 1)
  {
    if r.from < r.to <= |cs| {
      OpenRunIs(cs, r.to);
      if WholeRun(cs, r.from, r.to - 1) { OneStart(cs, r.from, r.to); }
    }
  }

  /** A stretch of groupable children has one beginning. */
  lemma {:induction false} OneStart(cs: seq<Node>, from: nat, to: nat)
    requires to >= 1 && WholeRun(cs, from, to - 1)
    ensures OpenRun(cs, to) == Some(from)
  {
    OpenRunIs(cs, to);
  }

  lemma CountIs(first: nat, last: nat, least: U32)
    requires first <= last <= MAX + 1 && first >= 1
    ensures LineCount(first, last) >= least <==> last - first + 1 >= least
  {
  }

  lemma {:induction false} RunPlaced(n: Node, i: nat, j: nat)
    requires WellPlaced(n) && i <= j < |n.children| && n.end <= MAX + 1
    ensures 1 <= n.children[i].start <= n.children[j].end <= MAX + 1 && n.children[j].start >= 1
  {
    assert n.children[i] in n.children && n.children[j] in n.children;
    if i < j { assert n.children[i].end <= n.children[j].start; }
  }

  /** A run's fold hides exactly the lines between its statements. */
  lemma RunHides(cs: seq<Node>, r: Run, o: Sizes, l: nat)
    requires r.from < r.to <= |cs| && RunEndsAt(cs, r) && l >= 1
    requires 1 <= cs[r.from].start <= cs[r.to - 1].end <= MAX + 1 && cs[r.to - 1].start >= 1
    ensures RunFold(cs, r, o).Some? && Hides(RunFold(cs, r, o).value, l)
       <==> r.to - r.from >= 2 && BetweenStatements(cs, r.from, r.to - 1, o, l)
  {
    if r.to - r.from >= 2 {
      RunIsWhole(cs, r);
      CountIs(cs[r.from].start, cs[r.to - 1].end, o.body);
    }
  }

  // ---------- Spans ----------

  ghost predicate HiddenBy(t: SpanTree, l: nat) {
    Hides(t.span, l) || exists k :: k in t.kids && HiddenBy(k, l)
  }

  ghost predicate HiddenIn(ts: seq<SpanTree>, l: nat) {
    exists t :: t in ts && HiddenBy(t, l)
  }

  lemma HiddenCat(a: seq<SpanTree>, b: seq<SpanTree>, l: nat)
    ensures HiddenIn(a + b, l) <==> HiddenIn(a, l) || HiddenIn(b, l)
  {
    if t :| t in a && HiddenBy(t, l) { assert t in a + b; }
    if t :| t in b && HiddenBy(t, l) { assert t in a + b; }
  }

  lemma {:induction false} HiddenOne(t: SpanTree, l: nat)
    ensures HiddenIn([t], l) <==> HiddenBy(t, l)
    ensures HiddenBy(t, l) <==> Hides(t.span, l) || HiddenIn(t.kids, l)
  {
    assert t in [t];
  }

  /** No line count of the tree saturates. */
  predicate Fits(n: Node) {
    WellPlaced(n) && n.end <= MAX + 1
  }

  lemma {:induction false} RunSpansHide(n: Node, runs: seq<Run>, o: Sizes, l: nat)
    requires ValidRuns(n.children, runs)
    ensures HiddenIn(RunSpans(n.children, runs, o), l)
       <==> exists r :: r in runs && RunFold(n.children, r, o).Some? && Hides(RunFold(n.children, r, o).value, l)
    decreases runs
  {
    if runs != [] {
      var k := |runs| - 1;
      var last := RunFold(n.children, runs[k], o);
      InitAndLast(runs);
      RunSpansHide(n, runs[..k], o, l);
      var more := match last { case Some(s) => [SpanTree(s, [])] case None => [] };
      HiddenCat(RunSpans(n.children, runs[..k], o), more, l);
      if last.Some? { HiddenOne(SpanTree(last.value, []), l); }
      assert runs[k] in runs;
      forall r ensures r in runs <==> r in runs[..k] || r == runs[k] { }
    }
  }

  lemma {:induction false} RunsHide(n: Node, o: Sizes, l: nat)
    requires Fits(n) && !n.comment && l >= 1
    ensures HiddenIn(RunSpans(n.children, AllRuns(n.children), o), l) <==> InRun(n, o, l)
  {
    var cs := n.children;
    RunSpansHide(n, AllRuns(cs), o, l);
    if r :| r in AllRuns(cs) && RunFold(cs, r, o).Some? && Hides(RunFold(cs, r, o).value, l) {
      RunIsReason(n, r, o, l);
    }
    if i: nat, j: nat :| BetweenStatements(cs, i, j, o, l) { ReasonIsRun(n, i, j, o, l); }
  }

  lemma {:induction false} ReasonIsRun(n: Node, i: nat, j: nat, o: Sizes, l: nat)
    requires Fits(n) && l >= 1 && BetweenStatements(n.children, i, j, o, l)
    ensures var r := Run(i, j + 1);
            r in AllRuns(n.children) && RunFold(n.children, r, o).Some? && Hides(RunFold(n.children, r, o).value, l)
  {
    var r := Run(i, j + 1);
    RunIsWhole(n.children, r);
    AllRunsAre(n.children, r);
    RunPlaced(n, i, j);
    RunHides(n.children, r, o, l);
  }

  lemma {:induction false} RunIsReason(n: Node, r: Run, o: Sizes, l: nat)
    requires Fits(n) && !n.comment && l >= 1 && r in AllRuns(n.children)
    requires RunFold(n.children, r, o).Some? && Hides(RunFold(n.children, r, o).value, l)
    ensures InRun(n, o, l)
  {
    AllRunsAre(n.children, r);
    RunPlaced(n, r.from, r.to - 1);
    RunHides(n.children, r, o, l);
    assert BetweenStatements(n.children, r.from, r.to - 1, o, l);
  }

  lemma CommentHides(n: Node, o: Sizes, l: nat)
    requires Fits(n) && n.comment
    ensures CommentSpan(n, o).Some? && Hides(CommentSpan(n, o).value, l) <==> InComment(n, o, l)
  {
    CountIs(n.start, n.end, o.comment);
  }

  lemma BodyHides(n: Node, o: Sizes, l: nat)
    requires Fits(n) && !n.comment
    ensures BodySpan(n, o).Some? && Hides(BodySpan(n, o).value, l) <==> InBody(n, o, l)
  {
    CountIs(n.start, n.end, o.body);
  }

  lemma {:induction false} ChildrenHide(ns: seq<Node>, o: Sizes, l: nat)
    requires l >= 1 && forall c :: c in ns ==> Fits(c) && (HiddenIn(Spans(c, o), l) <==> MayFold(c, o, l))
    ensures HiddenIn(SpansOfAll(ns, o), l) <==> exists c :: c in ns && MayFold(c, o, l)
    decreases ns
  {
    if ns != [] {
      HeadAndTail(ns);
      ChildrenHide(ns[1..], o, l);
      HiddenCat(Spans(ns[0], o), SpansOfAll(ns[1..], o), l);
      assert ns[0] in ns;
    }
  }

  lemma {:induction false} HiddenBelow(n: Node, o: Sizes, l: nat)
    requires !n.comment
    ensures HiddenIn(Spans(n, o), l)
       <==> (BodySpan(n, o).Some? && Hides(BodySpan(n, o).value, l)) || HiddenIn(RecordedBelow(n, o), l)
  {
    if BodySpan(n, o).Some? { HiddenOne(SpanTree(BodySpan(n, o).value, RecordedBelow(n, o)), l); }
  }

  /** The lines under the spans that are recorded of a tree are those with a reason. */
  lemma {:induction false} SpansHide(n: Node, o: Sizes, l: nat)
    requires Fits(n) && l >= 1
    ensures HiddenIn(Spans(n, o), l) <==> MayFold(n, o, l)
    decreases n
  {
    if n.comment {
      CommentHides(n, o, l);
      if CommentSpan(n, o).Some? { HiddenOne(SpanTree(CommentSpan(n, o).value, []), l); }
    } else {
      forall c | c in n.children ensures Fits(c) && (HiddenIn(Spans(c, o), l) <==> MayFold(c, o, l)) {
        SpansHide(c, o, l);
      }
      BodyHides(n, o, l);
      HiddenBelow(n, o, l);
      RunsHide(n, o, l);
      ChildrenHide(n.children, o, l);
      HiddenCat(RunSpans(n.children, AllRuns(n.children), o), SpansOfAll(n.children, o), l);
    }
  }

  // ---------- Nothing sticks out ----------

  ghost predicate Snug(t: SpanTree) {
    forall k :: k in t.kids ==> Within(k.span, t.span) && Snug(k)
  }

  ghost predicate AllSnug(ts: seq<SpanTree>) {
    forall t :: t in ts ==> Snug(t)
  }

  lemma SnugCat(a: seq<SpanTree>, b: seq<SpanTree>)
    requires AllSnug(a) && AllSnug(b)
    ensures AllSnug(a + b)
  {
  }

  lemma {:induction false} RunSpansSnug(cs: seq<Node>, runs: seq<Run>, o: Sizes)
    requires ValidRuns(cs, runs)
    ensures AllSnug(RunSpans(cs, runs, o))
    decreases runs
  {
    if runs != [] { RunSpansSnug(cs, runs[..|runs| - 1], o); }
  }

  lemma {:induction false} ChildrenSnug(ns: seq<Node>, o: Sizes)
    requires forall c :: c in ns ==> AllSnug(Spans(c, o))
    ensures AllSnug(SpansOfAll(ns, o))
    decreases ns
  {
    if ns != [] {
      HeadAndTail(ns);
      ChildrenSnug(ns[1..], o);
      assert ns[0] in ns;
      SnugCat(Spans(ns[0], o), SpansOfAll(ns[1..], o));
    }
  }

  lemma {:induction false} SpansSnug(n: Node, o: Sizes)
    requires WellPlaced(n)
    ensures AllSnug(Spans(n, o))
    decreases n
  {
    if !n.comment {
      forall c | c in n.children ensures AllSnug(Spans(c, o)) { SpansSnug(c, o); }
      RunSpansSnug(n.children, AllRuns(n.children), o);
      ChildrenSnug(n.children, o);
      SnugCat(RunSpans(n.children, AllRuns(n.children), o), SpansOfAll(n.children, o));
      BelowConfined(n, o);
      if BodySpan(n, o).Some? {
        forall k | k in RecordedBelow(n, o) ensures Within(k.span, BodySpan(n, o).value) {
          assert Confined(k, n.start, n.end);
        }
      }
    }
  }

  lemma {:induction false} SnugHides(t: SpanTree, l: nat)
    requires Snug(t)
    ensures HiddenBy(t, l) <==> Hides(t.span, l)
    decreases t
  {
    forall k | k in t.kids ensures HiddenBy(k, l) ==> Hides(t.span, l) { SnugHides(k, l); }
  }

  ghost predicate Topped(ts: seq<SpanTree>, l: nat) {
    exists t :: t in ts && Hides(t.span, l)
  }

  /** The outermost spans hide all that any of them hides. */
  lemma {:induction false} TopsHide(n: Node, o: Sizes, l: nat)
    requires WellPlaced(n)
    ensures HiddenIn(Spans(n, o), l) <==> Topped(Spans(n, o), l)
  {
    SpansSnug(n, o);
    forall t | t in Spans(n, o) ensures HiddenBy(t, l) <==> Hides(t.span, l) { SnugHides(t, l); }
  }
}

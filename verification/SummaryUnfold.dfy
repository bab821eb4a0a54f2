/** The unfold pass of crates/pi-ast/src/summary.rs: folded spans are replaced by their
    children, breadth-first, while the outline has fewer visible lines than wanted. */
module SummaryUnfold {
  import opened Common
  import opened Intervals
  import opened SummaryForest

  // ---------- What has been reached ----------

  function ChildrenOf(nodes: seq<SpanNode>, open: set<nat>): set<nat> {
    set p, c | p in open && p < |nodes| && c in nodes[p].children :: c
  }

  /** The spans an outline can mention once `open` are unfolded. */
  function Reach(nodes: seq<SpanNode>, roots: seq<nat>, open: set<nat>): set<nat> {
    Elems(roots) + ChildrenOf(nodes, open)
  }

  ghost predicate Search(nodes: seq<SpanNode>, roots: seq<nat>, folded: set<nat>, queue: seq<nat>,
                         open: set<nat>, done: set<nat>) {
    && Distinct(queue) && Elems(queue) !! done
    && open <= done
    && done + Elems(queue) == Reach(nodes, roots, open)
    && folded == Reach(nodes, roots, open) - open
  }

  lemma ReachBounded(nodes: seq<SpanNode>, roots: seq<nat>, open: set<nat>)
    requires Structural(nodes, roots)
    ensures forall i <- Reach(nodes, roots, open) :: i < |nodes|
  {
  }

  lemma ReachMore(nodes: seq<SpanNode>, roots: seq<nat>, open: set<nat>, idx: nat)
    requires Structural(nodes, roots) && idx < |nodes| && idx !in open
    ensures Reach(nodes, roots, open + {idx}) == Reach(nodes, roots, open) + Elems(nodes[idx].children)
    ensures Reach(nodes, roots, open) !! Elems(nodes[idx].children)
  {
    forall c <- nodes[idx].children ensures c !in Reach(nodes, roots, open) {
      forall p | p in open && p < |nodes| ensures c !in nodes[p].children { }
    }
    var more, fewer := ChildrenOf(nodes, open + {idx}), ChildrenOf(nodes, open);
    forall c ensures c in more <==> c in fewer + Elems(nodes[idx].children) {
      if c in more {
        var p :| p in open + {idx} && p < |nodes| && c in nodes[p].children;
      }
      if c in nodes[idx].children { assert idx in open + {idx}; }
      if c in fewer {
        var p :| p in open && p < |nodes| && c in nodes[p].children;
        assert p in open + {idx};
      }
    }
  }

  lemma ConcatDistinct(a: seq<nat>, b: seq<nat>)
    requires Distinct(a) && Distinct(b) && Elems(a) !! Elems(b)
    ensures Distinct(a + b) && Elems(a + b) == Elems(a) + Elems(b)
  {
    forall i, j | 0 <= i < |a| && 0 <= j < |b| ensures a[i] != b[j] {
      assert a[i] in Elems(a) && b[j] in Elems(b);
    }
  }

  lemma PopDistinct(queue: seq<nat>)
    requires Distinct(queue) && queue != []
    ensures Distinct(queue[1..]) && queue[0] !in Elems(queue[1..])
    ensures Elems(queue) == Elems(queue[1..]) + {queue[0]}
  {
    HeadAndTail(queue);
  }

  lemma StartSearch(nodes: seq<SpanNode>, roots: seq<nat>)
    requires Structural(nodes, roots)
    ensures Search(nodes, roots, Elems(roots), roots, {}, {})
  {
    assert Reach(nodes, roots, {}) == Elems(roots);
  }

  lemma SkipSearch(nodes: seq<SpanNode>, roots: seq<nat>, folded: set<nat>, queue: seq<nat>,
                   open: set<nat>, done: set<nat>)
    requires Search(nodes, roots, folded, queue, open, done) && queue != []
    ensures Search(nodes, roots, folded, queue[1..], open, done + {queue[0]})
  {
    PopDistinct(queue);
  }

  lemma UnfoldSearch(nodes: seq<SpanNode>, roots: seq<nat>, folded: set<nat>, queue: seq<nat>,
                     open: set<nat>, done: set<nat>)
    requires Structural(nodes, roots)
    requires Search(nodes, roots, folded, queue, open, done) && queue != []
    ensures queue[0] < |nodes| && queue[0] in folded
    ensures var idx := queue[0]; var kids := nodes[idx].children;
            Search(nodes, roots, folded - {idx} + Elems(kids), queue[1..] + kids, open + {idx}, done + {idx})
            && Elems(kids) !! folded
  {
    var idx := queue[0];
    assert idx in Elems(queue);
    ReachBounded(nodes, roots, open);
    assert idx !in done;
    assert idx !in open;
    PopDistinct(queue);
    ReachMore(nodes, roots, open, idx);
    ConcatDistinct(queue[1..], nodes[idx].children);
  }

  // ---------- The line count ----------

  /** How many lines unfolding a node adds, as the source computes it: `u32` throughout. */
  function Revealed(nodes: seq<SpanNode>, idx: nat): nat
    requires idx < |nodes| && Below(nodes[idx].children, |nodes|)
  {
    SatSub(Lines(nodes[idx].span), SumLines(nodes, nodes[idx].children) % (MAX + 1))
  }

  ghost function Unfolded(nodes: seq<SpanNode>, folded: set<nat>, idx: nat): set<nat>
    requires idx < |nodes|
  {
    folded - {idx} + Elems(nodes[idx].children)
  }

  ghost predicate Accounted(nodes: seq<SpanNode>, folded: set<nat>, visible: nat, total: nat) {
    AllApart(nodes, folded) && visible == |Shown(nodes, folded, total)|
  }

  lemma {:induction false} StartCount(nodes: seq<SpanNode>, roots: seq<nat>, total: nat)
    requires Structural(nodes, roots) && Nested(nodes, roots, total) && total <= MAX
    ensures Accounted(nodes, Elems(roots), SatSub(total, SumLines(nodes, roots) % (MAX + 1)), total)
  {
    forall r <- roots ensures Placed(nodes[r].span, total) && ApartFrom(nodes, r, {}) { }
    CountFromNone(nodes, roots, total);
  }

  lemma {:induction false} CountFromNone(nodes: seq<SpanNode>, roots: seq<nat>, total: nat)
    requires Distinct(roots) && Below(roots, |nodes|) && AllApart(nodes, Elems(roots)) && total <= MAX
    requires forall r <- roots :: Placed(nodes[r].span, total) && ApartFrom(nodes, r, {})
    ensures SatSub(total, SumLines(nodes, roots) % (MAX + 1)) == |Shown(nodes, Elems(roots), total)|
  {
    HideMany(nodes, {}, roots, total);
    ShownCard(nodes, {}, total);
    assert {} + Elems(roots) == Elems(roots);
  }

  lemma ChildrenApart(nodes: seq<SpanNode>, roots: seq<nat>, folded: set<nat>, idx: nat, total: nat)
    requires Structural(nodes, roots) && Nested(nodes, roots, total)
    requires AllApart(nodes, folded) && idx in folded && idx < |nodes|
    ensures forall c <- nodes[idx].children :: ApartFrom(nodes, c, folded - {idx})
    ensures AllApart(nodes, Unfolded(nodes, folded, idx))
  {
    var kids, rest := nodes[idx].children, folded - {idx};
    assert ApartFrom(nodes, idx, rest);
    forall c <- kids ensures ApartFrom(nodes, c, rest) {
      assert Within(nodes[c].span, nodes[idx].span) && Placed(nodes[c].span, total);
    }
    forall i <- rest + Elems(kids) ensures ApartFrom(nodes, i, rest + Elems(kids) - {i}) {
      if i in rest {
        assert ApartFrom(nodes, i, folded - {i});
      } else {
        assert ApartFrom(nodes, i, Elems(kids) - {i});
      }
    }
  }

  /** On a well-nested forest one unfold shows exactly the lines the source adds to its count,
      and none of its `u32` operations wraps or saturates. */
  lemma UnfoldCount(nodes: seq<SpanNode>, roots: seq<nat>, folded: set<nat>, idx: nat, total: nat)
    requires Structural(nodes, roots) && Nested(nodes, roots, total) && total <= MAX
    requires AllApart(nodes, folded) && idx in folded && idx < |nodes|
    ensures var after := |Shown(nodes, Unfolded(nodes, folded, idx), total)|;
            SatAdd(|Shown(nodes, folded, total)|, Revealed(nodes, idx)) == after
            && after == |Shown(nodes, folded, total)| + Revealed(nodes, idx)
  {
    var kids, rest := nodes[idx].children, folded - {idx};
    ChildrenApart(nodes, roots, folded, idx, total);
    HideMany(nodes, rest, kids, total);
    assert ApartFrom(nodes, idx, rest);
    HideOne(nodes, rest, idx, total);
    assert rest + {idx} == folded;
    ShownCard(nodes, rest, total);
    ShownCard(nodes, Unfolded(nodes, folded, idx), total);
    KidsWithin(nodes, roots, folded, idx, total);
  }

  /** Showing a span's children instead of the span never hides a line. */
  lemma KidsWithin(nodes: seq<SpanNode>, roots: seq<nat>, folded: set<nat>, idx: nat, total: nat)
    requires Structural(nodes, roots) && Nested(nodes, roots, total)
    requires idx in folded && idx < |nodes|
    ensures Shown(nodes, folded, total) <= Shown(nodes, Unfolded(nodes, folded, idx), total)
    ensures |Shown(nodes, folded, total)| <= |Shown(nodes, Unfolded(nodes, folded, idx), total)|
  {
    var before, after := Shown(nodes, folded, total), Shown(nodes, Unfolded(nodes, folded, idx), total);
    forall n <- before ensures n in after {
      forall i <- Unfolded(nodes, folded, idx) | i < |nodes| ensures !Hides(nodes[i].span, n) {
        if i in nodes[idx].children { assert Within(nodes[i].span, nodes[idx].span); }
      }
      assert Visible(nodes, Unfolded(nodes, folded, idx), n);
    }
    assert |after - before| == |after| - |before|;
  }

  // ---------- Breadth first ----------

  /** The queue goes by depth, spans at most two levels, and nothing in it is shallower than
      what has left it. */
  ghost predicate BreadthFirst(depth: seq<nat>, queue: seq<nat>, done: set<nat>) {
    && Below(queue, |depth|)
    && (forall i, j :: 0 <= i < j < |queue| ==> depth[queue[i]] <= depth[queue[j]] <= depth[queue[0]] + 1)
    && Shallower(depth, done, queue)
  }

  ghost predicate Shallower(depth: seq<nat>, done: set<nat>, queue: seq<nat>) {
    forall d, q | d in done && q in queue :: d < |depth| && q < |depth| && depth[d] <= depth[q]
  }

  lemma SkipBreadth(depth: seq<nat>, queue: seq<nat>, done: set<nat>)
    requires BreadthFirst(depth, queue, done) && queue != []
    ensures BreadthFirst(depth, queue[1..], done + {queue[0]})
  {
    forall q <- queue[1..] ensures q < |depth| && depth[queue[0]] <= depth[q] {
      var i :| 0 <= i < |queue[1..]| && queue[1..][i] == q;
      assert queue[i + 1] == q;
    }
    forall d, q | d in done + {queue[0]} && q in queue[1..]
      ensures d < |depth| && q < |depth| && depth[d] <= depth[q]
    {
      assert q in queue;
    }
  }

  lemma UnfoldOrder(depth: seq<nat>, first: nat, rest: seq<nat>, kids: seq<nat>)
    requires Below(rest, |depth|) && Below(kids, |depth|)
    requires forall i :: 0 <= i < |rest| ==> first <= depth[rest[i]] <= first + 1
    requires forall i, j :: 0 <= i < j < |rest| ==> depth[rest[i]] <= depth[rest[j]]
    requires forall i :: 0 <= i < |kids| ==> depth[kids[i]] == first + 1
    ensures var q := rest + kids;
            forall i, j :: 0 <= i < j < |q| ==> depth[q[i]] <= depth[q[j]] <= depth[q[0]] + 1
  {
  }

  lemma KidsDeeper(depth: seq<nat>, done: set<nat>, front: nat, rest: seq<nat>, kids: seq<nat>)
    requires front < |depth| && Shallower(depth, done, [front]) && Shallower(depth, done + {front}, rest)
    requires forall c <- kids :: c < |depth| && depth[c] == depth[front] + 1
    ensures Shallower(depth, done + {front}, rest + kids)
  {
    assert front in [front];
  }

  lemma UnfoldBreadth(depth: seq<nat>, queue: seq<nat>, done: set<nat>, kids: seq<nat>)
    requires BreadthFirst(depth, queue, done) && queue != []
    requires Below(kids, |depth|) && forall c <- kids :: c < |depth| && depth[c] == depth[queue[0]] + 1
    ensures BreadthFirst(depth, queue[1..] + kids, done + {queue[0]})
  {
    SkipBreadth(depth, queue, done);
    forall i | 0 <= i < |kids| ensures depth[kids[i]] == depth[queue[0]] + 1 { assert kids[i] in kids; }
    UnfoldOrder(depth, depth[queue[0]], queue[1..], kids);
    assert queue[0] in queue;
    KidsDeeper(depth, done, queue[0], queue[1..], kids);
  }

  // ---------- The pass ----------

  /** The last unfold was made while too few lines were visible. */
  ghost predicate LastNeeded(nodes: seq<SpanNode>, folded: set<nat>, open: set<nat>, last: nat, total: nat,
                             until: nat) {
    open != {} ==>
      && last in open && last < |nodes| && Elems(nodes[last].children) <= folded
      && |Shown(nodes, folded - Elems(nodes[last].children) + {last}, total)| < until
  }

  /** A folded span that has been passed over stays folded because opening it shows too much. */
  ghost predicate Stuck(nodes: seq<SpanNode>, folded: set<nat>, i: nat, total: nat, limit: nat) {
    i < |nodes| && |Shown(nodes, Unfolded(nodes, folded, i), total)| > limit
  }

  ghost predicate PassedOver(nodes: seq<SpanNode>, folded: set<nat>, done: set<nat>, visible: nat, limit: nat) {
    forall i | i in folded && i in done ::
      i < |nodes| && Below(nodes[i].children, |nodes|) && visible + Revealed(nodes, i) > limit
  }

  lemma AllStuck(nodes: seq<SpanNode>, roots: seq<nat>, folded: set<nat>, done: set<nat>,
                 visible: nat, total: nat, limit: nat)
    requires Structural(nodes, roots) && Nested(nodes, roots, total) && total <= MAX
    requires Accounted(nodes, folded, visible, total) && PassedOver(nodes, folded, done, visible, limit)
    ensures forall i | i in folded && i in done :: Stuck(nodes, folded, i, total, limit)
  {
    forall i | i in folded && i in done ensures Stuck(nodes, folded, i, total, limit) {
      UnfoldCount(nodes, roots, folded, i, total);
    }
  }

  lemma LastStep(nodes: seq<SpanNode>, folded: set<nat>, open: set<nat>, idx: nat, total: nat, until: nat)
    requires idx < |nodes| && idx in folded && Elems(nodes[idx].children) !! folded
    requires |Shown(nodes, folded, total)| < until
    ensures LastNeeded(nodes, Unfolded(nodes, folded, idx), open + {idx}, idx, total, until)
  {
    assert Unfolded(nodes, folded, idx) - Elems(nodes[idx].children) + {idx} == folded;
  }

  function Indices(n: nat): set<nat> {
    set i: nat | i < n && Under(i, n)
  }

  predicate Under(i: nat, n: nat) {
    i < n
  }

  lemma OneFewer(n: nat, done: set<nat>, idx: nat)
    requires idx < n && idx !in done
    ensures |Indices(n) - (done + {idx})| < |Indices(n) - done|
  {
    assert Under(idx, n);
    assert Indices(n) - done == Indices(n) - (done + {idx}) + {idx};
  }

  /** What the pass promises about a well-nested forest. */
  ghost predicate Outline(nodes: seq<SpanNode>, roots: seq<nat>, depth: seq<nat>, folded: set<nat>, open: set<nat>,
                          last: nat, total: nat, until: nat, limit: nat)
    requires |depth| == |nodes|
  {
    var visible := |Shown(nodes, folded, total)|;
    && AllApart(nodes, folded)
    && visible <= Max(|Shown(nodes, Elems(roots), total)|, limit)
    && (until == 0 ==> folded == Elems(roots))
    && (until > 0 ==> visible >= until || forall i <- folded :: Stuck(nodes, folded, i, total, limit))
    && (forall i, j | i in folded && j in open :: i < |nodes| && j < |nodes|
          && (depth[i] < depth[j] ==> Stuck(nodes, folded, i, total, limit)))
    && LastNeeded(nodes, folded, open, last, total, until)
  }

  /** Where the pass stands; `open`, `done` and `last` only help to say what it keeps. */
  datatype Pass = Pass(folded: set<nat>, queue: seq<nat>, visible: nat, open: set<nat>, done: set<nat>, last: nat)

  datatype Limits = Limits(total: nat, until: nat, limit: nat)

  ghost predicate Kept(nodes: seq<SpanNode>, roots: seq<nat>, depth: seq<nat>, s: Pass, b: Limits) {
    && Structural(nodes, roots) && Levels(nodes, roots, depth) && b.total <= MAX
    && Search(nodes, roots, s.folded, s.queue, s.open, s.done)
    && BreadthFirst(depth, s.queue, s.done)
    && PassedOver(nodes, s.folded, s.done, s.visible, b.limit)
    && s.visible <= MAX
  }

  ghost predicate Counted(nodes: seq<SpanNode>, roots: seq<nat>, s: Pass, b: Limits) {
    && Accounted(nodes, s.folded, s.visible, b.total)
    && s.visible <= Max(|Shown(nodes, Elems(roots), b.total)|, b.limit)
    && LastNeeded(nodes, s.folded, s.open, s.last, b.total, b.until)
  }

  lemma {:induction false} Starts(nodes: seq<SpanNode>, roots: seq<nat>, depth: seq<nat>, b: Limits)
    requires Structural(nodes, roots) && Levels(nodes, roots, depth) && b.total <= MAX
    ensures var s := Pass(Elems(roots), roots, SatSub(b.total, SumLines(nodes, roots) % (MAX + 1)), {}, {}, 0);
            Kept(nodes, roots, depth, s, b) && (Nested(nodes, roots, b.total) ==> Counted(nodes, roots, s, b))
  {
    StartSearch(nodes, roots);
    if Nested(nodes, roots, b.total) { StartCount(nodes, roots, b.total); }
    forall i | 0 <= i < |roots| ensures depth[roots[i]] == 0 { assert roots[i] in roots; }
  }

  function Skip(s: Pass): Pass
    requires s.queue != []
  {
    s.(queue := s.queue[1..], done := s.done + {s.queue[0]})
  }

  lemma SkipKeeps(nodes: seq<SpanNode>, roots: seq<nat>, depth: seq<nat>, s: Pass, b: Limits)
    requires Kept(nodes, roots, depth, s, b) && s.queue != [] && s.queue[0] < |nodes|
    requires SatAdd(s.visible, Revealed(nodes, s.queue[0])) > b.limit
    ensures Kept(nodes, roots, depth, Skip(s), b)
  {
    SkipSearch(nodes, roots, s.folded, s.queue, s.open, s.done);
    SkipBreadth(depth, s.queue, s.done);
  }

  function Unfold(nodes: seq<SpanNode>, s: Pass): Pass
    requires s.queue != [] && s.queue[0] < |nodes| && Below(nodes[s.queue[0]].children, |nodes|)
  {
    var idx := s.queue[0];
    var kids := nodes[idx].children;
    Pass(s.folded - {idx} + Elems(kids), s.queue[1..] + kids, SatAdd(s.visible, Revealed(nodes, idx)),
         s.open + {idx}, s.done + {idx}, idx)
  }

  lemma UnfoldKeeps(nodes: seq<SpanNode>, roots: seq<nat>, depth: seq<nat>, s: Pass, b: Limits)
    requires Kept(nodes, roots, depth, s, b) && s.queue != [] && s.queue[0] < |nodes|
    ensures Kept(nodes, roots, depth, Unfold(nodes, s), b)
  {
    UnfoldSearch(nodes, roots, s.folded, s.queue, s.open, s.done);
    UnfoldBreadth(depth, s.queue, s.done, nodes[s.queue[0]].children);
    var t := Unfold(nodes, s);
    forall i | i in t.folded && i in t.done
      ensures i < |nodes| && t.visible + Revealed(nodes, i) > b.limit
    {
      assert i in s.folded && i in s.done by {
        assert i != s.queue[0];
        assert i in Reach(nodes, roots, s.open);
      }
    }
  }

  lemma UnfoldCounts(nodes: seq<SpanNode>, roots: seq<nat>, depth: seq<nat>, s: Pass, b: Limits)
    requires Kept(nodes, roots, depth, s, b) && s.queue != [] && s.queue[0] < |nodes|
    requires Nested(nodes, roots, b.total) && Counted(nodes, roots, s, b) && s.visible < b.until
    requires SatAdd(s.visible, Revealed(nodes, s.queue[0])) <= b.limit
    ensures Counted(nodes, roots, Unfold(nodes, s), b)
  {
    var idx := s.queue[0];
    UnfoldSearch(nodes, roots, s.folded, s.queue, s.open, s.done);
    UnfoldCount(nodes, roots, s.folded, idx, b.total);
    ChildrenApart(nodes, roots, s.folded, idx, b.total);
    LastStep(nodes, s.folded, s.open, idx, b.total, b.until);
  }

  lemma Finish(nodes: seq<SpanNode>, roots: seq<nat>, depth: seq<nat>, s: Pass, b: Limits)
    requires Kept(nodes, roots, depth, s, b)
    requires Nested(nodes, roots, b.total) && Counted(nodes, roots, s, b)
    requires b.until > 0 && (s.queue == [] || s.visible >= b.until)
    ensures Outline(nodes, roots, depth, s.folded, s.open, s.last, b.total, b.until, b.limit)
  {
    ReachBounded(nodes, roots, s.open);
    AllStuck(nodes, roots, s.folded, s.done, s.visible, b.total, b.limit);
    forall i, j | i in s.folded && j in s.open
      ensures i < |nodes| && j < |nodes| && (depth[i] < depth[j] ==> Stuck(nodes, s.folded, i, b.total, b.limit))
    {
      assert j in s.done && i in s.done + Elems(s.queue);
    }
  }

  /** Nothing is unfolded, so nothing is left to show. */
  lemma StaysFolded(nodes: seq<SpanNode>, roots: seq<nat>, depth: seq<nat>, b: Limits)
    requires Structural(nodes, roots) && Levels(nodes, roots, depth) && b.total <= MAX
    requires b.until == 0 || Elems(roots) == {}
    ensures Reach(nodes, roots, {}) == Elems(roots)
    ensures Nested(nodes, roots, b.total)
        ==> Outline(nodes, roots, depth, Elems(roots), {}, 0, b.total, b.until, b.limit)
  {
  }

  // ---------- The count the pass steers by ----------

  /** Lines of a span, and of several, as `u32` counts them: a sum may wrap round. */
  function Width(s: Span): int {
    Min(Max(s.end - s.start, 0) + 1, 0xFFFF_FFFF)
  }

  function Widths(nodes: seq<SpanNode>, ids: seq<nat>): int
    requires Below(ids, |nodes|)
  {
    if ids == [] then 0 else Widths(nodes, ids[..|ids| - 1]) + Width(nodes[ids[|ids| - 1]].span)
  }

  /** What opening a span adds to the count; nothing if its children seem wider than it. */
  function Gain(nodes: seq<SpanNode>, i: nat): int
    requires i < |nodes| && Below(nodes[i].children, |nodes|)
  {
    Max(Width(nodes[i].span) - Widths(nodes, nodes[i].children) % 0x1_0000_0000, 0)
  }

  predicate Openable(nodes: seq<SpanNode>, i: nat) {
    i < |nodes| && Below(nodes[i].children, |nodes|)
  }

  predicate AllOpenable(nodes: seq<SpanNode>, order: seq<nat>) {
    forall i :: 0 <= i < |order| ==> Openable(nodes, order[i])
  }

  /** The count after the spans in `order` have been opened. */
  function CountAfter(nodes: seq<SpanNode>, roots: seq<nat>, order: seq<nat>, total: nat): int
    requires Below(roots, |nodes|) && AllOpenable(nodes, order)
  {
    if order == [] then Max(total - Widths(nodes, roots) % 0x1_0000_0000, 0)
    else
      var k := |order| - 1;
      Min(CountAfter(nodes, roots, order[..k], total) + Gain(nodes, order[k]), 0xFFFF_FFFF)
  }

  /** Each of the spans was opened while the count was too low, and did not take it over the limit. */
  ghost predicate OpenedInTurn(nodes: seq<SpanNode>, roots: seq<nat>, order: seq<nat>, b: Limits)
    requires Below(roots, |nodes|) && AllOpenable(nodes, order)
  {
    order != [] ==>
      var before := order[..|order| - 1];
      && CountAfter(nodes, roots, before, b.total) < b.until && CountAfter(nodes, roots, order, b.total) <= b.limit
      && OpenedInTurn(nodes, roots, before, b)
  }

  /** On every forest, overlapping spans or not: which spans are opened, in order of depth, and why
      no more are. */
  ghost predicate Steered(nodes: seq<SpanNode>, roots: seq<nat>, depth: seq<nat>, folded: set<nat>, open: set<nat>,
                          order: seq<nat>, b: Limits) {
    && InOrder(nodes, roots, depth, open, order) && OpenedInTurn(nodes, roots, order, b)
    && var count := CountAfter(nodes, roots, order, b.total);
       count >= b.until || forall i <- folded :: Openable(nodes, i) && count + Gain(nodes, i) > b.limit
  }

  lemma {:induction false} WidthsAre(nodes: seq<SpanNode>, ids: seq<nat>)
    requires Below(ids, |nodes|)
    ensures Widths(nodes, ids) == SumLines(nodes, ids)
    decreases ids
  {
    if ids != [] { WidthsAre(nodes, ids[..|ids| - 1]); }
  }

  lemma GainIs(nodes: seq<SpanNode>, i: nat)
    requires Openable(nodes, i)
    ensures Gain(nodes, i) == Revealed(nodes, i)
  {
    WidthsAre(nodes, nodes[i].children);
  }

  /** The spans in the order they were opened, each of them no deeper than the next. */
  ghost predicate InOrder(nodes: seq<SpanNode>, roots: seq<nat>, depth: seq<nat>, open: set<nat>, order: seq<nat>) {
    && Below(roots, |nodes|) && AllOpenable(nodes, order) && Elems(order) == open && Distinct(order)
    && forall i, j :: 0 <= i < j < |order| ==>
         order[i] < |depth| && order[j] < |depth| && depth[order[i]] <= depth[order[j]]
  }

  /** Where the pass stands. */
  ghost predicate Steering(nodes: seq<SpanNode>, roots: seq<nat>, depth: seq<nat>, s: Pass, order: seq<nat>,
                           b: Limits) {
    && InOrder(nodes, roots, depth, s.open, order) && OpenedInTurn(nodes, roots, order, b)
    && s.visible == CountAfter(nodes, roots, order, b.total)
  }

  lemma {:induction false} SteerStart(nodes: seq<SpanNode>, roots: seq<nat>, depth: seq<nat>, b: Limits)
    requires Structural(nodes, roots)
    ensures var s := Pass(Elems(roots), roots, SatSub(b.total, SumLines(nodes, roots) % (MAX + 1)), {}, {}, 0);
            Steering(nodes, roots, depth, s, [], b)
  {
    WidthsAre(nodes, roots);
    assert Elems<nat>([]) == {};
  }

  lemma OpenOneMore(nodes: seq<SpanNode>, roots: seq<nat>, depth: seq<nat>, open: set<nat>, order: seq<nat>, idx: nat)
    requires InOrder(nodes, roots, depth, open, order) && Openable(nodes, idx) && idx !in open && idx < |depth|
    requires forall d <- open :: d < |depth| && depth[d] <= depth[idx]
    ensures InOrder(nodes, roots, depth, open + {idx}, order + [idx])
  {
    forall i | 0 <= i < |order| ensures order[i] in open { assert order[i] in Elems(order); }
    forall x ensures x in Elems(order + [idx]) <==> x in open + {idx} { }
  }

  lemma NextToOpen(nodes: seq<SpanNode>, roots: seq<nat>, depth: seq<nat>, s: Pass, b: Limits)
    requires Kept(nodes, roots, depth, s, b) && s.queue != [] && s.queue[0] < |nodes|
    ensures var idx := s.queue[0];
            && Openable(nodes, idx) && idx !in s.open && idx < |depth|
            && forall d <- s.open :: d < |depth| && depth[d] <= depth[idx]
  {
    var idx := s.queue[0];
    assert idx in s.queue && idx in Elems(s.queue);
  }

  lemma {:induction false} OpenedMore(nodes: seq<SpanNode>, roots: seq<nat>, order: seq<nat>, idx: nat, b: Limits)
    requires Below(roots, |nodes|) && AllOpenable(nodes, order) && Openable(nodes, idx)
    requires OpenedInTurn(nodes, roots, order, b) && CountAfter(nodes, roots, order, b.total) < b.until
    requires Min(CountAfter(nodes, roots, order, b.total) + Gain(nodes, idx), MAX) <= b.limit
    ensures AllOpenable(nodes, order + [idx]) && OpenedInTurn(nodes, roots, order + [idx], b)
    ensures CountAfter(nodes, roots, order + [idx], b.total)
         == Min(CountAfter(nodes, roots, order, b.total) + Gain(nodes, idx), MAX)
  {
    MoreInit(order, idx);
  }

  lemma {:induction false} SteerOpen(nodes: seq<SpanNode>, roots: seq<nat>, depth: seq<nat>, s: Pass, order: seq<nat>,
                                     b: Limits, idx: nat, t: Pass)
    requires Steering(nodes, roots, depth, s, order, b) && Openable(nodes, idx)
    requires idx !in s.open && idx < |depth| && forall d <- s.open :: d < |depth| && depth[d] <= depth[idx]
    requires s.visible < b.until && SatAdd(s.visible, Revealed(nodes, idx)) <= b.limit
    requires t.open == s.open + {idx} && t.visible == SatAdd(s.visible, Revealed(nodes, idx))
    ensures Steering(nodes, roots, depth, t, order + [idx], b)
  {
    GainIs(nodes, idx);
    OpenOneMore(nodes, roots, depth, s.open, order, idx);
    OpenedMore(nodes, roots, order, idx, b);
  }

  lemma {:induction false} SteerUnfold(nodes: seq<SpanNode>, roots: seq<nat>, depth: seq<nat>, s: Pass, order: seq<nat>,
                                       b: Limits)
    requires Kept(nodes, roots, depth, s, b) && Steering(nodes, roots, depth, s, order, b) && s.queue != []
    requires s.visible < b.until && s.queue[0] < |nodes| && Below(nodes[s.queue[0]].children, |nodes|)
    requires SatAdd(s.visible, Revealed(nodes, s.queue[0])) <= b.limit
    ensures Steering(nodes, roots, depth, Unfold(nodes, s), order + [s.queue[0]], b)
  {
    NextToOpen(nodes, roots, depth, s, b);
    SteerOpen(nodes, roots, depth, s, order, b, s.queue[0], Unfold(nodes, s));
  }

  lemma {:induction false} SteerEnd(nodes: seq<SpanNode>, roots: seq<nat>, depth: seq<nat>, s: Pass, order: seq<nat>,
                                    b: Limits)
    requires Kept(nodes, roots, depth, s, b) && Steering(nodes, roots, depth, s, order, b)
    requires s.queue == [] || s.visible >= b.until
    ensures Steered(nodes, roots, depth, s.folded, s.open, order, b)
  {
    if s.visible < b.until {
      forall i <- s.folded ensures Openable(nodes, i) && s.visible + Gain(nodes, i) > b.limit {
        assert i in s.done;
        GainIs(nodes, i);
      }
    }
  }

  lemma {:induction false} NothingToSteer(nodes: seq<SpanNode>, roots: seq<nat>, depth: seq<nat>, b: Limits)
    requires Structural(nodes, roots) && Elems(roots) == {}
    ensures Steered(nodes, roots, depth, {}, {}, [], b)
  {
    assert Elems<nat>([]) == {};
  }

  /** How the pass ends: what is folded is what can be reached by opening `open`, `last` the
      latest, and has not been opened. */
  ghost predicate PassEnds(nodes: seq<SpanNode>, roots: seq<nat>, depth: seq<nat>, folded: set<nat>, open: set<nat>,
                           last: nat, b: Limits) {
    && open <= Reach(nodes, roots, open) && folded == Reach(nodes, roots, open) - open
    && |depth| == |nodes|
    && (if b.until == 0 then folded == Elems(roots)
        else exists order: seq<nat> :: Steered(nodes, roots, depth, folded, open, order, b))
    && (Nested(nodes, roots, b.total) ==>
          Outline(nodes, roots, depth, folded, open, last, b.total, b.until, b.limit))
  }

  /** The pass itself. */
  method SelectFolded(forest: ElidableForest, ghost depth: seq<nat>, total: nat, until: nat, limit: nat)
    returns (folded: set<nat>)
    requires Structural(forest.nodes, forest.roots) && Levels(forest.nodes, forest.roots, depth) && total <= MAX
    ensures exists open, last ::
              PassEnds(forest.nodes, forest.roots, depth, folded, open, last, Limits(total, until, limit))
  {
    var nodes := forest.nodes;
    ghost var roots, b := forest.roots, Limits(total, until, limit);
    ghost var nested := Nested(nodes, roots, total);
    ghost var open: set<nat>, last: nat := {}, 0;
    folded := Elems(forest.roots);
    if until == 0 || folded == {} {
      StaysFolded(nodes, roots, depth, b);
      if until > 0 { NothingToSteer(nodes, roots, depth, b); }
      assert PassEnds(nodes, roots, depth, folded, open, last, b);
      return;
    }
    var foldedLines := SumLines(nodes, forest.roots) % (MAX + 1);
    var visible: nat := SatSub(total, foldedLines);
    var queue: seq<nat> := forest.roots;
    ghost var done: set<nat>, order: seq<nat> := {}, [];
    Starts(nodes, roots, depth, b);
    SteerStart(nodes, roots, depth, b);
    while queue != []
      invariant Kept(nodes, roots, depth, Pass(folded, queue, visible, open, done, last), b)
      invariant nested ==> Counted(nodes, roots, Pass(folded, queue, visible, open, done, last), b)
      invariant Steering(nodes, roots, depth, Pass(folded, queue, visible, open, done, last), order, b)
      decreases |Indices(|nodes|) - done|
    {
      ghost var s := Pass(folded, queue, visible, open, done, last);
      var idx := queue[0];
      if visible >= until { break; }
      UnfoldSearch(nodes, roots, folded, queue, open, done);
      OneFewer(|nodes|, done, idx);
      queue := queue[1..];
      if idx in folded {
        var newVisible := SatAdd(visible, Revealed(nodes, idx));
        if newVisible > limit {
          SkipKeeps(nodes, roots, depth, s, b);
        } else {
          UnfoldKeeps(nodes, roots, depth, s, b);
          if nested { UnfoldCounts(nodes, roots, depth, s, b); }
          SteerUnfold(nodes, roots, depth, s, order, b);
          folded := folded - {idx} + Elems(nodes[idx].children);
          queue := queue + nodes[idx].children;
          visible := newVisible;
          open, last, order := open + {idx}, idx, order + [idx];
        }
        done := done + {idx};
      }
    }
    if nested { Finish(nodes, roots, depth, Pass(folded, queue, visible, open, done, last), b); }
    SteerEnd(nodes, roots, depth, Pass(folded, queue, visible, open, done, last), order, b);
    assert PassEnds(nodes, roots, depth, folded, open, last, b);
  }
}

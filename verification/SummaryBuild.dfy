/** Recording a tree's spans in the arena, as `collect_elidable_tree` of
    crates/pi-ast/src/summary.rs does, and what that makes of the unfold pass. */
module SummaryBuild {
  import opened Common
  import opened Intervals
  import opened SummaryForest
  import opened SummaryUnfold
  import opened SummarySegments
  import opened SummaryCollect
  import opened SummaryReasons
  import opened SummaryOutline

  datatype Arena = Arena(nodes: seq<SpanNode>, roots: seq<nat>)

  predicate Holds(a: Arena, parent: Option<nat>) {
    parent.Some? ==> parent.value < |a.nodes|
  }

  function Add(a: Arena, parent: Option<nat>, span: Span): Arena
    requires Holds(a, parent)
  {
    Arena(Pushed(a.nodes, parent, span), if parent.None? then a.roots + [|a.nodes|] else a.roots)
  }

  /** Recording span trees one by one, each before what is below it. */
  function AddTrees(a: Arena, parent: Option<nat>, ts: seq<SpanTree>): (b: Arena)
    requires Holds(a, parent)
    ensures |b.nodes| >= |a.nodes|
    decreases ts
  {
    if ts == [] then a
    else
      var first := Add(a, parent, ts[0].span);
      AddTrees(AddTrees(first, Some(|a.nodes|), ts[0].kids), parent, ts[1..])
  }

  lemma {:induction false} AddTreesCat(a: Arena, parent: Option<nat>, x: seq<SpanTree>, y: seq<SpanTree>)
    requires Holds(a, parent)
    ensures AddTrees(a, parent, x + y) == AddTrees(AddTrees(a, parent, x), parent, y)
    decreases x
  {
    if x == [] {
      assert x + y == y;
    } else {
      CatTail(x, y);
      var first := Add(a, parent, x[0].span);
      AddTreesCat(AddTrees(first, Some(|a.nodes|), x[0].kids), parent, x[1..], y);
    }
  }

  ghost function ArenaOf(f: ElidableForest): Arena
    reads f
  {
    Arena(f.nodes, f.roots)
  }

  method Record(f: ElidableForest, parent: Option<nat>, span: Option<Span>)
    requires Holds(ArenaOf(f), parent)
    modifies f
    ensures ArenaOf(f) == AddTrees(old(ArenaOf(f)), parent, Leaf(span))
  {
    if span.Some? {
      var _ := f.Push(parent, span.value);
    }
  }

  function Leaf(span: Option<Span>): seq<SpanTree> {
    match span { case Some(s) => [SpanTree(s, [])] case None => [] }
  }

  lemma {:induction false} RunSpansEnd(cs: seq<Node>, closed: seq<Run>, i: nat, o: Sizes)
    requires i <= |cs| && ValidRuns(cs, closed) && ValidRuns(cs, Ending(cs, i))
    ensures RunSpans(cs, closed + Ending(cs, i), o) == RunSpans(cs, closed, o) + RunSpans(cs, Ending(cs, i), o)
  {
    var e := Ending(cs, i);
    if e == [] {
      assert closed + e == closed;
    } else {
      assert (closed + e)[..|closed|] == closed;
      assert RunSpans(cs, e, o) == Leaf(RunFold(cs, e[0], o)) by { assert e[..0] == []; }
    }
  }

  lemma {:induction false} EndingSpans(cs: seq<Node>, i: nat, o: Sizes)
    requires i <= |cs|
    ensures RunSpans(cs, Ending(cs, i), o)
         == match OpenRun(cs, i) { case None => [] case Some(s) => Leaf(RunSpan(cs[s], cs[i - 1], i - s, o)) }
  {
    var e := Ending(cs, i);
    if e != [] { assert e[..0] == []; }
  }

  /** The three run variables after `i` children: first and last node of the open run, and how
      many it has. */
  ghost function RunVars(cs: seq<Node>, i: nat): (Option<Node>, Option<Node>, nat)
    requires i <= |cs|
  {
    match OpenRun(cs, i)
    case None => (None, None, 0)
    case Some(s) => (Some(cs[s]), Some(cs[i - 1]), i - s)
  }

  lemma {:induction false} CloseRun(a: Arena, parent: Option<nat>, cs: seq<Node>, i: nat, o: Sizes)
    requires Holds(a, parent) && i <= |cs|
    ensures var before := AddTrees(a, parent, RunSpans(cs, ClosedRuns(cs, i), o));
            AddTrees(before, parent, RunSpans(cs, Ending(cs, i), o))
            == AddTrees(a, parent, RunSpans(cs, ClosedRuns(cs, i) + Ending(cs, i), o))
  {
    AddTreesCat(a, parent, RunSpans(cs, ClosedRuns(cs, i), o), RunSpans(cs, Ending(cs, i), o));
    RunSpansEnd(cs, ClosedRuns(cs, i), i, o);
  }

  /** `a` is the arena before the children's runs, of which those closed are in `f`. */
  method FlushRun(f: ElidableForest, parent: Option<nat>, first: Option<Node>, last: Option<Node>, count: nat, o: Sizes,
                  ghost a: Arena, ghost cs: seq<Node>, ghost i: nat)
    requires Holds(a, parent) && i <= |cs| && RunVars(cs, i) == (first, last, count)
    requires ArenaOf(f) == AddTrees(a, parent, RunSpans(cs, ClosedRuns(cs, i), o))
    modifies f
    ensures ArenaOf(f) == AddTrees(a, parent, RunSpans(cs, ClosedRuns(cs, i) + Ending(cs, i), o))
  {
    CloseRun(a, parent, cs, i, o);
    EndingSpans(cs, i, o);
    if count < 2 { return; }
    Record(f, parent, RunSpan(first.value, last.value, count, o));
  }

  lemma {:induction false} NoRuns(cs: seq<Node>, o: Sizes)
    ensures RunSpans(cs, ClosedRuns(cs, 0), o) == []
  {
  }

  lemma {:induction false} RunStep(cs: seq<Node>, i: nat)
    requires i < |cs|
    ensures if cs[i].groupable
            then
              && ClosedRuns(cs, i + 1) == ClosedRuns(cs, i)
              && var (first, _, count) := RunVars(cs, i);
                 RunVars(cs, i + 1) == (if first.None? then Some(cs[i]) else first, Some(cs[i]), count + 1)
            else
              && ClosedRuns(cs, i + 1) == ClosedRuns(cs, i) + Ending(cs, i)
              && RunVars(cs, i + 1) == (None, None, 0)
  {
  }

  /** All the runs among a node's children. */
  method CollectRuns(f: ElidableForest, parent: Option<nat>, cs: seq<Node>, o: Sizes)
    requires Holds(ArenaOf(f), parent)
    modifies f
    ensures ArenaOf(f) == AddTrees(old(ArenaOf(f)), parent, RunSpans(cs, AllRuns(cs), o))
  {
    var first: Option<Node>, last: Option<Node>, count: nat := None, None, 0;
    var i := 0;
    ghost var a := ArenaOf(f);
    NoRuns(cs, o);
    while i < |cs|
      invariant 0 <= i <= |cs| && RunVars(cs, i) == (first, last, count)
      invariant ArenaOf(f) == AddTrees(a, parent, RunSpans(cs, ClosedRuns(cs, i), o))
    {
      var child := cs[i];
      RunStep(cs, i);
      if child.groupable {
        if first.None? { first := Some(child); }
        last := Some(child);
        count := count + 1;
      } else {
        FlushRun(f, parent, first, last, count, o, a, cs, i);
        first, last, count := None, None, 0;
      }
      i := i + 1;
    }
    FlushRun(f, parent, first, last, count, o, a, cs, i);
  }

  lemma {:induction false} SpansOfAllPrefix(cs: seq<Node>, i: nat, o: Sizes)
    requires i < |cs|
    ensures SpansOfAll(cs[..i + 1], o) == SpansOfAll(cs[..i], o) + Spans(cs[i], o)
    decreases cs
  {
    assert cs[..i + 1][1..] == cs[1..][..i];
    if i > 0 {
      assert cs[..i][1..] == cs[1..][..i - 1];
      SpansOfAllPrefix(cs[1..], i - 1, o);
    }
  }

  method CollectAll(f: ElidableForest, parent: Option<nat>, ns: seq<Node>, o: Sizes)
    requires Holds(ArenaOf(f), parent)
    modifies f
    ensures ArenaOf(f) == AddTrees(old(ArenaOf(f)), parent, SpansOfAll(ns, o))
    decreases ns
  {
    var i := 0;
    ghost var a := ArenaOf(f);
    while i < |ns|
      invariant 0 <= i <= |ns|
      invariant Holds(a, parent) && ArenaOf(f) == AddTrees(a, parent, SpansOfAll(ns[..i], o))
    {
      SpansOfAllPrefix(ns, i, o);
      AddTreesCat(a, parent, SpansOfAll(ns[..i], o), Spans(ns[i], o));
      Collect(f, parent, ns[i], o);
      i := i + 1;
    }
    TakeAll(ns, i);
  }

  /** The arena after a node has been collected holds exactly the span trees of that node. */
  method Collect(f: ElidableForest, parent: Option<nat>, n: Node, o: Sizes)
    requires Holds(ArenaOf(f), parent)
    modifies f
    ensures ArenaOf(f) == AddTrees(old(ArenaOf(f)), parent, Spans(n, o))
    decreases n
  {
    if n.comment {
      Record(f, parent, CommentSpan(n, o));
      return;
    }
    ghost var a := ArenaOf(f);
    var current := parent;
    if BodySpan(n, o).Some? {
      var idx := f.Push(parent, BodySpan(n, o).value);
      current := Some(idx);
      AddOne(a, parent, SpanTree(BodySpan(n, o).value, RecordedBelow(n, o)));
    }
    AddTreesCat(ArenaOf(f), current, RunSpans(n.children, AllRuns(n.children), o), SpansOfAll(n.children, o));
    CollectRuns(f, current, n.children, o);
    CollectAll(f, current, n.children, o);
  }

  lemma {:induction false} AddOne(a: Arena, parent: Option<nat>, t: SpanTree)
    requires Holds(a, parent)
    ensures AddTrees(a, parent, [t]) == AddTrees(Add(a, parent, t.span), Some(|a.nodes|), t.kids)
  {
  }

  // ---------- Nesting in the arena ----------

  function Size(t: SpanTree): nat
    decreases t
  {
    1 + SizeAll(t.kids)
  }

  function SizeAll(ts: seq<SpanTree>): nat
    decreases ts
  {
    if ts == [] then 0 else Size(ts[0]) + SizeAll(ts[1..])
  }

  predicate Rising(s: seq<nat>) {
    forall i, j :: 0 <= i < j < |s| ==> s[i] < s[j]
  }

  /** Where the trees' own nodes go when recording starts at index `at`. */
  function Tops(at: nat, ts: seq<SpanTree>): seq<nat>
    decreases ts
  {
    if ts == [] then [] else [at] + Tops(at + Size(ts[0]), ts[1..])
  }

  lemma {:induction false} TopsRise(at: nat, ts: seq<SpanTree>)
    ensures Rising(Tops(at, ts)) && forall x <- Tops(at, ts) :: at <= x
    decreases ts
  {
    if ts != [] {
      TopsRise(at + Size(ts[0]), ts[1..]);
      var rest := Tops(at + Size(ts[0]), ts[1..]);
      forall i | 0 <= i < |rest| ensures at < rest[i] { assert rest[i] in rest; }
    }
  }

  /** `b` is `a` with `tops` hung below `parent` and everything else of `a` as it was. */
  ghost predicate Grown(a: Arena, b: Arena, parent: Option<nat>, tops: seq<nat>) {
    && |a.nodes| <= |b.nodes|
    && (forall p :: 0 <= p < |a.nodes| ==> b.nodes[p].span == a.nodes[p].span)
    && (forall p :: 0 <= p < |a.nodes| ==>
          b.nodes[p].children == a.nodes[p].children + if parent == Some(p) then tops else [])
    && b.roots == a.roots + if parent == None then tops else []
  }

  ghost predicate Carry(nodes: seq<SpanNode>, tops: seq<nat>, ts: seq<SpanTree>) {
    |tops| == |ts| && forall i :: 0 <= i < |tops| ==> tops[i] < |nodes| && nodes[tops[i]].span == ts[i].span
  }

  lemma GrownTwice(a: Arena, b: Arena, c: Arena, parent: Option<nat>, x: seq<nat>, y: seq<nat>)
    requires Grown(a, b, parent, x) && Grown(b, c, parent, y)
    ensures Grown(a, c, parent, x + y)
  {
  }

  lemma AddGrown(a: Arena, parent: Option<nat>, t: SpanTree, c: Arena, tops: seq<nat>)
    requires Holds(a, parent) && Grown(Add(a, parent, t.span), c, Some(|a.nodes|), tops)
    ensures Grown(a, c, parent, [|a.nodes|])
    ensures c.nodes[|a.nodes|] == SpanNode(t.span, tops)
  {
  }

  ghost predicate Shaped(a: Arena, b: Arena, parent: Option<nat>, tops: seq<nat>, ts: seq<SpanTree>) {
    Grown(a, b, parent, tops) && Carry(b.nodes, tops, ts)
  }

  lemma ShapeStep(a: Arena, c: Arena, b: Arena, parent: Option<nat>, ts: seq<SpanTree>, kids: seq<nat>, tops: seq<nat>)
    requires Holds(a, parent) && ts != []
    requires Shaped(Add(a, parent, ts[0].span), c, Some(|a.nodes|), kids, ts[0].kids)
    requires Shaped(c, b, parent, tops, ts[1..])
    ensures Shaped(a, b, parent, [|a.nodes|] + tops, ts)
  {
    var k := |a.nodes|;
    AddGrown(a, parent, ts[0], c, kids);
    GrownTwice(a, c, b, parent, [k], tops);
    CarryMore(c, b, parent, ts, k, tops);
  }

  lemma {:induction false} AddedSize(a: Arena, parent: Option<nat>, ts: seq<SpanTree>)
    requires Holds(a, parent)
    ensures |AddTrees(a, parent, ts).nodes| == |a.nodes| + SizeAll(ts)
    decreases ts
  {
    if ts != [] {
      var first := Add(a, parent, ts[0].span);
      AddedSize(first, Some(|a.nodes|), ts[0].kids);
      AddedSize(AddTrees(first, Some(|a.nodes|), ts[0].kids), parent, ts[1..]);
    }
  }

  lemma {:induction false} TopsStep(at: nat, ts: seq<SpanTree>, next: nat)
    requires ts != [] && next == at + 1 + SizeAll(ts[0].kids)
    ensures Tops(at, ts) == [at] + Tops(next, ts[1..])
  {
    assert Size(ts[0]) == 1 + SizeAll(ts[0].kids);
  }

  lemma {:induction false} Shape(a: Arena, parent: Option<nat>, ts: seq<SpanTree>)
    requires Holds(a, parent)
    ensures Shaped(a, AddTrees(a, parent, ts), parent, Tops(|a.nodes|, ts), ts)
    decreases ts
  {
    if ts != [] {
      var first := Add(a, parent, ts[0].span);
      var c := AddTrees(first, Some(|a.nodes|), ts[0].kids);
      Shape(first, Some(|a.nodes|), ts[0].kids);
      Shape(c, parent, ts[1..]);
      ShapeStep(a, c, AddTrees(c, parent, ts[1..]), parent, ts, Tops(|first.nodes|, ts[0].kids), Tops(|c.nodes|, ts[1..]));
      AddedSize(first, Some(|a.nodes|), ts[0].kids);
      TopsStep(|a.nodes|, ts, |c.nodes|);
    }
  }

  lemma CarryMore(c: Arena, b: Arena, parent: Option<nat>, ts: seq<SpanTree>, k: nat, tops: seq<nat>)
    requires ts != [] && k < |c.nodes| && c.nodes[k].span == ts[0].span
    requires Grown(c, b, parent, tops) && Carry(b.nodes, tops, ts[1..])
    ensures Carry(b.nodes, [k] + tops, ts)
  {
    var all := [k] + tops;
    forall i | 0 <= i < |all| ensures all[i] < |b.nodes| && b.nodes[all[i]].span == ts[i].span {
      if i > 0 { assert all[i] == tops[i - 1] && ts[i] == ts[1..][i - 1]; }
    }
  }

  /** One node of the arena meets all that a well-nested forest asks of it. */
  ghost predicate Good(nodes: seq<SpanNode>, p: nat, total: nat) {
    && p < |nodes| && Placed(nodes[p].span, total)
    && (forall c <- nodes[p].children :: c < |nodes| && Within(nodes[c].span, nodes[p].span))
    && AllApart(nodes, Elems(nodes[p].children))
  }

  ghost predicate GoodRange(nodes: seq<SpanNode>, from: nat, to: nat, total: nat) {
    forall p :: from <= p < to ==> Good(nodes, p, total)
  }

  ghost predicate DeepPlaced(t: SpanTree, total: nat) {
    Placed(t.span, total) && forall k <- t.kids :: DeepPlaced(k, total)
  }

  ghost predicate AllGood(ts: seq<SpanTree>, total: nat) {
    forall t <- ts :: Deep(t) && DeepPlaced(t, total)
  }

  lemma ApartIffPairs(nodes: seq<SpanNode>, tops: seq<nat>, ts: seq<SpanTree>)
    requires Carry(nodes, tops, ts) && Rising(tops)
    ensures AllApart(nodes, Elems(tops)) <==> PairsApart(ts)
  {
    if AllApart(nodes, Elems(tops)) {
      forall i, j | 0 <= i < j < |ts| ensures Disjoint(ts[i], ts[j]) {
        assert tops[i] in Elems(tops) && tops[j] in Elems(tops) - {tops[i]};
        assert ApartFrom(nodes, tops[i], Elems(tops) - {tops[i]});
      }
    }
    if PairsApart(ts) {
      forall x <- Elems(tops) ensures ApartFrom(nodes, x, Elems(tops) - {x}) {
        var i :| 0 <= i < |tops| && tops[i] == x;
        forall y <- Elems(tops) - {x} ensures y < |nodes| && Apart(nodes[x].span, nodes[y].span) {
          var j :| 0 <= j < |tops| && tops[j] == y;
          assert Disjoint(ts[i], ts[j]) || Disjoint(ts[j], ts[i]);
        }
      }
    }
  }

  lemma GoodHead(nodes: seq<SpanNode>, k: nat, t: SpanTree, total: nat, tops: seq<nat>)
    requires k < |nodes| && nodes[k] == SpanNode(t.span, tops) && Carry(nodes, tops, t.kids)
    requires Rising(tops)
    ensures Good(nodes, k, total)
       <==> Placed(t.span, total) && PairsApart(t.kids) && forall x <- t.kids :: Within(x.span, t.span)
  {
    ApartIffPairs(nodes, tops, t.kids);
    if forall c <- tops :: c < |nodes| && Within(nodes[c].span, t.span) {
      forall x <- t.kids ensures Within(x.span, t.span) {
        var i :| 0 <= i < |t.kids| && t.kids[i] == x;
        assert tops[i] in tops;
      }
    }
  }

  lemma ApartSame(a: seq<SpanNode>, b: seq<SpanNode>, ids: set<nat>)
    requires |a| <= |b| && (forall i :: 0 <= i < |a| ==> a[i].span == b[i].span) && forall i <- ids :: i < |a|
    ensures AllApart(a, ids) <==> AllApart(b, ids)
  {
    if AllApart(a, ids) {
      forall i <- ids ensures ApartFrom(b, i, ids - {i}) { assert ApartFrom(a, i, ids - {i}); }
    }
    if AllApart(b, ids) {
      forall i <- ids ensures ApartFrom(a, i, ids - {i}) { assert ApartFrom(b, i, ids - {i}); }
    }
  }

  ghost predicate ChildrenBelow(nodes: seq<SpanNode>, n: nat) {
    forall p, c | 0 <= p < |nodes| && c in nodes[p].children :: c < n
  }

  lemma GoodSame(a: seq<SpanNode>, b: seq<SpanNode>, p: nat, total: nat)
    requires p < |a| <= |b| && (forall i :: 0 <= i < |a| ==> a[i].span == b[i].span)
    requires a[p].children == b[p].children && ChildrenBelow(a, |a|)
    ensures Good(a, p, total) <==> Good(b, p, total)
  {
    ApartSame(a, b, Elems(a[p].children));
  }

  lemma {:induction false} AddBounded(a: Arena, parent: Option<nat>, ts: seq<SpanTree>)
    requires Holds(a, parent) && ChildrenBelow(a.nodes, |a.nodes|)
    ensures var b := AddTrees(a, parent, ts); ChildrenBelow(b.nodes, |b.nodes|)
    decreases ts
  {
    if ts != [] {
      var first := Add(a, parent, ts[0].span);
      AddBounded(first, Some(|a.nodes|), ts[0].kids);
      AddBounded(AddTrees(first, Some(|a.nodes|), ts[0].kids), parent, ts[1..]);
    }
  }

  lemma RangeSame(c: Arena, b: Arena, parent: Option<nat>, tops: seq<nat>, from: nat, total: nat)
    requires Grown(c, b, parent, tops) && ChildrenBelow(c.nodes, |c.nodes|)
    requires parent.Some? ==> parent.value < from
    ensures GoodRange(b.nodes, from, |c.nodes|, total) <==> GoodRange(c.nodes, from, |c.nodes|, total)
  {
    forall p | from <= p < |c.nodes| ensures Good(b.nodes, p, total) <==> Good(c.nodes, p, total) {
      GoodSame(c.nodes, b.nodes, p, total);
    }
  }

  /** The range of one tree: its own node, then everything below it. */
  lemma {:induction false} HeadRange(a: Arena, parent: Option<nat>, t: SpanTree, c: Arena, total: nat, kids: seq<nat>)
    requires Holds(a, parent) && Rising(kids)
    requires Shaped(Add(a, parent, t.span), c, Some(|a.nodes|), kids, t.kids)
    requires GoodRange(c.nodes, |a.nodes| + 1, |c.nodes|, total) <==> AllGood(t.kids, total)
    ensures GoodRange(c.nodes, |a.nodes|, |c.nodes|, total) <==> Deep(t) && DeepPlaced(t, total)
  {
    AddGrown(a, parent, t, c, kids);
    RangeOfTree(c.nodes, |a.nodes|, t, total, kids);
  }

  lemma {:induction false} RangeOfTree(nodes: seq<SpanNode>, k: nat, t: SpanTree, total: nat, kids: seq<nat>)
    requires k < |nodes| && nodes[k] == SpanNode(t.span, kids) && Carry(nodes, kids, t.kids) && Rising(kids)
    requires GoodRange(nodes, k + 1, |nodes|, total) <==> AllGood(t.kids, total)
    ensures GoodRange(nodes, k, |nodes|, total) <==> Deep(t) && DeepPlaced(t, total)
  {
    GoodHead(nodes, k, t, total, kids);
    SplitRange(nodes, k, total);
    TreeGood(t, total);
  }

  lemma {:induction false} TreeGood(t: SpanTree, total: nat)
    ensures Deep(t) && DeepPlaced(t, total) <==>
            Placed(t.span, total) && PairsApart(t.kids) && (forall x <- t.kids :: Within(x.span, t.span))
            && AllGood(t.kids, total)
  {
  }

  lemma {:induction false} FirstTree(a: Arena, parent: Option<nat>, t: SpanTree, c: Arena, total: nat)
    requires Holds(a, parent) && c == AddTrees(Add(a, parent, t.span), Some(|a.nodes|), t.kids)
    requires GoodRange(c.nodes, |a.nodes| + 1, |c.nodes|, total) <==> AllGood(t.kids, total)
    ensures GoodRange(c.nodes, |a.nodes|, |c.nodes|, total) <==> Deep(t) && DeepPlaced(t, total)
  {
    Shape(Add(a, parent, t.span), Some(|a.nodes|), t.kids);
    TopsRise(|Add(a, parent, t.span).nodes|, t.kids);
    HeadRange(a, parent, t, c, total, Tops(|Add(a, parent, t.span).nodes|, t.kids));
  }

  lemma {:induction false} JoinRanges(c: Arena, parent: Option<nat>, ts: seq<SpanTree>, k: nat, total: nat)
    requires Holds(c, parent) && ChildrenBelow(c.nodes, |c.nodes|) && k <= |c.nodes|
    requires parent.Some? ==> parent.value < k
    ensures var b := AddTrees(c, parent, ts);
            GoodRange(b.nodes, k, |b.nodes|, total)
            <==> GoodRange(c.nodes, k, |c.nodes|, total) && GoodRange(b.nodes, |c.nodes|, |b.nodes|, total)
  {
    var b := AddTrees(c, parent, ts);
    Shape(c, parent, ts);
    RangeSame(c, b, parent, Tops(|c.nodes|, ts), k, total);
    SplitAll(b.nodes, k, |c.nodes|, total);
  }

  lemma {:induction false} AllGoodSplit(ts: seq<SpanTree>, total: nat)
    requires ts != []
    ensures AllGood(ts, total) <==> Deep(ts[0]) && DeepPlaced(ts[0], total) && AllGood(ts[1..], total)
  {
    HeadAndTail(ts);
  }

  /** The nodes that recording adds are well nested if and only if the trees are. */
  lemma {:induction false} GoodIff(a: Arena, parent: Option<nat>, ts: seq<SpanTree>, total: nat)
    requires Holds(a, parent) && ChildrenBelow(a.nodes, |a.nodes|)
    ensures var b := AddTrees(a, parent, ts);
            GoodRange(b.nodes, |a.nodes|, |b.nodes|, total) <==> AllGood(ts, total)
    decreases ts
  {
    if ts != [] {
      var first := Add(a, parent, ts[0].span);
      var c := AddTrees(first, Some(|a.nodes|), ts[0].kids);
      AddBounded(first, Some(|a.nodes|), ts[0].kids);
      GoodIff(first, Some(|a.nodes|), ts[0].kids, total);
      FirstTree(a, parent, ts[0], c, total);
      GoodIff(c, parent, ts[1..], total);
      JoinRanges(c, parent, ts[1..], |a.nodes|, total);
      AllGoodSplit(ts, total);
    }
  }

  lemma SplitRange(nodes: seq<SpanNode>, k: nat, total: nat)
    requires k < |nodes|
    ensures GoodRange(nodes, k, |nodes|, total) <==> Good(nodes, k, total) && GoodRange(nodes, k + 1, |nodes|, total)
  {
  }

  lemma SplitAll(nodes: seq<SpanNode>, k: nat, m: nat, total: nat)
    requires k <= m <= |nodes|
    ensures GoodRange(nodes, k, |nodes|, total) <==> GoodRange(nodes, k, m, total) && GoodRange(nodes, m, |nodes|, total)
  {
  }

  // ---------- A whole tree ----------

  lemma {:induction false} SpansPlaced(n: Node, o: Sizes, total: nat)
    requires WellPlaced(n) && n.end <= total + 1
    ensures forall t <- Spans(n, o) :: DeepPlaced(t, total)
    decreases n
  {
    SpansConfined(n, o);
    if !n.comment {
      ChildrenPlaced(n.children, o, total, n.end);
      RunsPlaced(n, o, total);
      forall t <- RecordedBelow(n, o) ensures DeepPlaced(t, total) { }
    }
  }

  lemma RunsPlaced(n: Node, o: Sizes, total: nat)
    requires WellPlaced(n) && n.end <= total + 1
    ensures forall t <- RunSpans(n.children, AllRuns(n.children), o) :: DeepPlaced(t, total)
  {
    var runs := RunSpans(n.children, AllRuns(n.children), o);
    RunsAreRuns(n.children, |n.children|);
    RunsConfined(n, AllRuns(n.children), |n.children|, o);
    StartsBounded(n);
    RunsTidy(n, AllRuns(n.children), |n.children|, o, n.end);
    forall t <- runs ensures DeepPlaced(t, total) {
      assert Confined(t, n.start, n.end) && t.kids == [];
    }
  }

  lemma {:induction false} ChildrenPlaced(ns: seq<Node>, o: Sizes, total: nat, end: nat)
    requires end <= total + 1 && forall c <- ns :: WellPlaced(c) && c.end <= end
    ensures forall t <- SpansOfAll(ns, o) :: DeepPlaced(t, total)
    decreases ns
  {
    if ns != [] {
      SpansPlaced(ns[0], o, total);
      ChildrenPlaced(ns[1..], o, total, end);
    }
  }

  /** What the whole tree records is a well-nested forest if and only if no folded run of
      statements hides something foldable in its middle. */
  lemma {:induction false} ForestNestedIffClean(root: Node, o: Sizes, total: nat)
    requires WellPlaced(root) && root.end <= total + 1
    ensures var b := AddTrees(Arena([], []), None, Spans(root, o));
            Nested(b.nodes, b.roots, total) <==> Clean(root, o)
  {
    SpansPlaced(root, o, total);
    NestedIffTidy(Spans(root, o), total);
    TidyIffClean(root, o);
  }

  lemma {:induction false} NestedIffTidy(ts: seq<SpanTree>, total: nat)
    requires forall t <- ts :: DeepPlaced(t, total)
    ensures var b := AddTrees(Arena([], []), None, ts); Nested(b.nodes, b.roots, total) <==> Tidy(ts)
  {
    var b := AddTrees(Arena([], []), None, ts);
    Shape(Arena([], []), None, ts);
    GoodIff(Arena([], []), None, ts, total);
    TopsRise(0, ts);
    ApartIffPairs(b.nodes, b.roots, ts);
    NestedByNodes(b, total);
    assert AllGood(ts, total) <==> DeepAll(ts);
  }

  lemma NestedByNodes(b: Arena, total: nat)
    ensures Nested(b.nodes, b.roots, total) <==> GoodRange(b.nodes, 0, |b.nodes|, total) && AllApart(b.nodes, Elems(b.roots))
  {
    if GoodRange(b.nodes, 0, |b.nodes|, total) {
      forall p | 0 <= p < |b.nodes|
        ensures Placed(b.nodes[p].span, total) && AllApart(b.nodes, Elems(b.nodes[p].children))
        ensures forall c <- b.nodes[p].children :: c < |b.nodes| && Within(b.nodes[c].span, b.nodes[p].span)
      {
        assert Good(b.nodes, p, total);
      }
    }
  }

  function ArenaOfTree(root: Node, o: Sizes): Arena {
    AddTrees(Arena([], []), None, Spans(root, o))
  }

  /** The summary of a tree whose spans are in the arena `a`. */
  ghost predicate TreeSummary(a: Arena, segs: seq<Segment>, depth: seq<nat>, lines: seq<string>, merged: seq<Span>,
                              folded: set<nat>, open: set<nat>, last: nat, b: Limits) {
    SummaryOf(segs, a.nodes, a.roots, depth, lines, merged, folded, open, last, b) && Elided(segs) == merged
  }

  lemma {:induction false} KeepsToBudget(a: Arena, segs: seq<Segment>, depth: seq<nat>, lines: seq<string>,
                                         merged: seq<Span>,
                      folded: set<nat>, open: set<nat>, last: nat, b: Limits)
    requires SummaryOf(segs, a.nodes, a.roots, depth, lines, merged, folded, open, last, b)
    requires b.total == |lines| && Nested(a.nodes, a.roots, |lines|)
    ensures KeptLines(segs) <= Max(|Shown(a.nodes, Elems(a.roots), |lines|)|, b.limit)
  {
  }

  // ---------- Which lines are left out ----------

  ghost predicate SpansSame(a: Arena, b: Arena) {
    |a.nodes| <= |b.nodes| && forall p :: 0 <= p < |a.nodes| ==> b.nodes[p].span == a.nodes[p].span
  }

  /** A recorded span hides nothing that the trees do not. */
  lemma {:induction false} NodesHide(a: Arena, parent: Option<nat>, ts: seq<SpanTree>, l: nat)
    requires Holds(a, parent)
    ensures var b := AddTrees(a, parent, ts);
            && SpansSame(a, b)
            && forall p :: |a.nodes| <= p < |b.nodes| && Hides(b.nodes[p].span, l) ==> HiddenIn(ts, l)
    decreases ts
  {
    if ts != [] {
      var first := Add(a, parent, ts[0].span);
      var c := AddTrees(first, Some(|a.nodes|), ts[0].kids);
      NodesHide(first, Some(|a.nodes|), ts[0].kids, l);
      NodesHide(c, parent, ts[1..], l);
      HeadAndTail(ts);
      HiddenCat([ts[0]], ts[1..], l);
      HiddenOne(ts[0], l);
      assert c.nodes[|a.nodes|].span == ts[0].span;
    }
  }

  lemma CarriedHide(nodes: seq<SpanNode>, tops: seq<nat>, ts: seq<SpanTree>, l: nat)
    requires Carry(nodes, tops, ts)
    ensures !Visible(nodes, Elems(tops), l) <==> Topped(ts, l)
  {
    if !Visible(nodes, Elems(tops), l) {
      var x :| x in Elems(tops) && x < |nodes| && Hides(nodes[x].span, l);
      var i :| 0 <= i < |tops| && tops[i] == x;
      assert ts[i] in ts;
    }
    if t :| t in ts && Hides(t.span, l) {
      var i :| 0 <= i < |ts| && ts[i] == t;
      assert tops[i] in Elems(tops);
    }
  }

  lemma {:induction false} RootsHide(ts: seq<SpanTree>, l: nat)
    ensures var b := AddTrees(Arena([], []), None, ts); !Visible(b.nodes, Elems(b.roots), l) <==> Topped(ts, l)
  {
    var b := AddTrees(Arena([], []), None, ts);
    Shape(Arena([], []), None, ts);
    assert b.roots == Tops(0, ts);
    CarriedHide(b.nodes, b.roots, ts, l);
  }

  /** What a summary leaves out has a reason, and if nothing is unfolded whatever has one is left
      out. */
  lemma {:induction false} LeftOutForReason(root: Node, o: Sizes, segs: seq<Segment>, depth: seq<nat>,
                                            lines: seq<string>, merged: seq<Span>, folded: set<nat>, open: set<nat>,
                                            last: nat, b: Limits, l: nat)
    requires WellPlaced(root) && root.end <= |lines| + 1 && |lines| <= MAX && b.total == |lines|
    requires TreeSummary(ArenaOfTree(root, o), segs, depth, lines, merged, folded, open, last, b)
    ensures LeftOut(segs, l) ==> 1 <= l <= |lines| && MayFold(root, o, l)
    ensures b.until == 0 && MayFold(root, o, l) ==> LeftOut(segs, l)
  {
    LeftOutIs(segs, |lines|, lines, merged, l);
    if MayFold(root, o, l) { ReasonInFile(root, o, l); }
    if l >= 1 {
      SpansHide(root, o, l);
      TopsHide(root, o, l);
      RootsHide(Spans(root, o), l);
      NodesHide(Arena([], []), None, Spans(root, o), l);
    }
  }

  lemma {:induction false} ReasonInFile(n: Node, o: Sizes, l: nat)
    requires WellPlaced(n) && MayFold(n, o, l)
    ensures 1 <= l < n.end
    decreases n
  {
    if InRun(n, o, l) {
      var i: nat, j: nat :| BetweenStatements(n.children, i, j, o, l);
      assert n.children[j] in n.children && n.children[i] in n.children;
    } else if !Reason(n, o, l) {
      var c :| c in n.children && MayFold(c, o, l);
      ReasonInFile(c, o, l);
    }
  }

  /** From a syntax tree to the segments of its summary. When no folded run hides anything
      foldable, the number of lines a reader sees keeps to the budget and the ceiling. */
  method Summarize(root: Node, lines: seq<string>, o: Sizes, until: nat, limit: nat) returns (segs: seq<Segment>)
    requires WellPlaced(root) && root.end <= |lines| + 1 && |lines| <= MAX
    ensures exists depth, merged, folded, open, last ::
              TreeSummary(ArenaOfTree(root, o), segs, depth, lines, merged, folded, open, last,
                          Limits(|lines|, until, limit))
    ensures var a := ArenaOfTree(root, o);
            Clean(root, o) ==> KeptLines(segs) <= Max(|Shown(a.nodes, Elems(a.roots), |lines|)|, limit)
    ensures forall l: nat :: LeftOut(segs, l) ==> 1 <= l <= |lines| && MayFold(root, o, l)
    ensures until == 0 ==> forall l: nat :: MayFold(root, o, l) ==> LeftOut(segs, l)
  {
    var f := new ElidableForest();
    Collect(f, None, root, o);
    ghost var a, b := ArenaOfTree(root, o), Limits(|lines|, until, limit);
    AllStartInFile(root, o, |lines|);
    ghost var depth := TreesAreForest(Arena([], []), [], None, Spans(root, o));
    segs := SummarizeForest(f, depth, lines, until, limit);
    ghost var merged, folded, open, last :|
      SummaryOf(segs, f.nodes, f.roots, depth, lines, merged, folded, open, last, b);
    assert TreeSummary(a, segs, depth, lines, merged, folded, open, last, b);
    forall l: nat
      ensures LeftOut(segs, l) ==> 1 <= l <= |lines| && MayFold(root, o, l)
      ensures until == 0 && MayFold(root, o, l) ==> LeftOut(segs, l)
    { LeftOutForReason(root, o, segs, depth, lines, merged, folded, open, last, b, l); }
    ForestNestedIffClean(root, o, |lines|);
    if Clean(root, o) { KeepsToBudget(a, segs, depth, lines, merged, folded, open, last, b); }
  }

  lemma {:induction false} TreesAreForest(a: Arena, depth: seq<nat>, parent: Option<nat>, ts: seq<SpanTree>)
    returns (deeper: seq<nat>)
    requires Holds(a, parent) && Structural(a.nodes, a.roots) && Levels(a.nodes, a.roots, depth)
    ensures var b := AddTrees(a, parent, ts); Structural(b.nodes, b.roots) && Levels(b.nodes, b.roots, deeper)
    decreases ts
  {
    deeper := depth;
    if ts != [] {
      PushKeeps(a.nodes, a.roots, depth, parent, ts[0].span);
      var k := |a.nodes|;
      var first := Add(a, parent, ts[0].span);
      deeper := TreesAreForest(first, depth + [if parent.None? then 0 else depth[parent.value] + 1], Some(k), ts[0].kids);
      deeper := TreesAreForest(AddTrees(first, Some(k), ts[0].kids), deeper, parent, ts[1..]);
    }
  }

  lemma {:induction false} AllStartInFile(root: Node, o: Sizes, total: nat)
    requires WellPlaced(root) && root.end <= total + 1
    ensures forall n <- AddTrees(Arena([], []), None, Spans(root, o)).nodes :: n.span.start >= 1
  {
    SpansPlaced(root, o, total);
    PlacedInArena(Arena([], []), None, Spans(root, o), total);
  }

  lemma {:induction false} PlacedInArena(a: Arena, parent: Option<nat>, ts: seq<SpanTree>, total: nat)
    requires Holds(a, parent) && (forall n <- a.nodes :: Placed(n.span, total))
    requires forall t <- ts :: DeepPlaced(t, total)
    ensures forall n <- AddTrees(a, parent, ts).nodes :: Placed(n.span, total)
    decreases ts
  {
    if ts != [] {
      var first := Add(a, parent, ts[0].span);
      assert ts[0] in ts;
      PlacedInArena(first, Some(|a.nodes|), ts[0].kids, total);
      PlacedInArena(AddTrees(first, Some(|a.nodes|), ts[0].kids), parent, ts[1..], total);
    }
  }
}

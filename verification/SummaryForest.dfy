/** The forest of elidable line spans of crates/pi-ast/src/summary.rs and the breadth-first
    pass that decides which of them stay folded. */
module SummaryForest {
  import opened Common
  import opened Intervals

  const MAX: nat := 0xFFFF_FFFF

  function SatAdd(a: nat, b: nat): nat {
    if a + b <= MAX then a + b else MAX
  }

  function SatSub(a: nat, b: nat): nat {
    if a >= b then a - b else 0
  }

  function Lines(s: Span): nat {
    SatAdd(SatSub(s.end, s.start), 1)
  }

  datatype SpanNode = SpanNode(span: Span, children: seq<nat>)

  // ---------- The arena ----------

  predicate Below(s: seq<nat>, n: nat) {
    forall i :: 0 <= i < |s| ==> s[i] < n
  }

  /** Every node hangs in one place only, below a node pushed before it. */
  ghost predicate Structural(nodes: seq<SpanNode>, roots: seq<nat>) {
    && Distinct(roots) && Below(roots, |nodes|)
    && (forall p | 0 <= p < |nodes| ::
          Distinct(nodes[p].children) && Below(nodes[p].children, |nodes|)
          && forall c <- nodes[p].children :: p < c && c !in roots)
    && (forall p, q | 0 <= p < |nodes| && 0 <= q < |nodes| && p != q ::
          forall c <- nodes[p].children :: c !in nodes[q].children)
  }

  /** How deep each node lies in the forest. */
  ghost predicate Levels(nodes: seq<SpanNode>, roots: seq<nat>, depth: seq<nat>) {
    && |depth| == |nodes|
    && (forall r <- roots :: r < |nodes| && depth[r] == 0)
    && (forall p | 0 <= p < |nodes| :: forall c <- nodes[p].children :: c < |nodes| && depth[c] == depth[p] + 1)
  }

  class ElidableForest {
    var nodes: seq<SpanNode>
    var roots: seq<nat>

    constructor ()
      ensures nodes == [] && roots == []
    {
      nodes, roots := [], [];
    }

    method Push(parent: Option<nat>, span: Span) returns (idx: nat)
      requires parent.Some? ==> parent.value < |nodes|
      modifies this
      ensures idx == |old(nodes)|
      ensures nodes == Pushed(old(nodes), parent, span)
      ensures roots == if parent.None? then old(roots) + [idx] else old(roots)
    {
      idx := |nodes|;
      nodes := nodes + [SpanNode(span, [])];
      match parent {
        case Some(p) => nodes := nodes[p := SpanNode(nodes[p].span, nodes[p].children + [idx])];
        case None => roots := roots + [idx];
      }
    }
  }

  function Pushed(nodes: seq<SpanNode>, parent: Option<nat>, span: Span): seq<SpanNode>
    requires parent.Some? ==> parent.value < |nodes|
  {
    var more := nodes + [SpanNode(span, [])];
    match parent
    case Some(p) => more[p := SpanNode(more[p].span, more[p].children + [|nodes|])]
    case None => more
  }

  lemma AppendDistinct(s: seq<nat>, x: nat)
    requires Distinct(s) && x !in s
    ensures Distinct(s + [x])
  {
    forall i | 0 <= i < |s| ensures s[i] != x { assert s[i] in s; }
  }

  lemma PushStructural(nodes: seq<SpanNode>, roots: seq<nat>, parent: Option<nat>, span: Span)
    requires Structural(nodes, roots) && (parent.Some? ==> parent.value < |nodes|)
    ensures Structural(Pushed(nodes, parent, span), if parent.None? then roots + [|nodes|] else roots)
  {
    var after := Pushed(nodes, parent, span);
    match parent
    case None => AppendDistinct(roots, |nodes|);
    case Some(p) => AppendDistinct(nodes[p].children, |nodes|);
  }

  /** Whatever is pushed where, the arena stays a forest, and the new node is one level down. */
  lemma PushKeeps(nodes: seq<SpanNode>, roots: seq<nat>, depth: seq<nat>, parent: Option<nat>, span: Span)
    requires Structural(nodes, roots) && Levels(nodes, roots, depth) && (parent.Some? ==> parent.value < |nodes|)
    ensures var hung := if parent.None? then roots + [|nodes|] else roots;
            Structural(Pushed(nodes, parent, span), hung)
            && Levels(Pushed(nodes, parent, span), hung,
                      depth + [if parent.None? then 0 else depth[parent.value] + 1])
  {
    PushStructural(nodes, roots, parent, span);
  }

  // ---------- Lines shown and hidden ----------

  ghost predicate Visible(nodes: seq<SpanNode>, ids: set<nat>, n: nat) {
    forall i <- ids :: i < |nodes| ==> !Hides(nodes[i].span, n)
  }

  /** The lines of a file that no span of `ids` hides. */
  ghost function Shown(nodes: seq<SpanNode>, ids: set<nat>, total: nat): set<nat> {
    set n: nat | 1 <= n <= total && Visible(nodes, ids, n)
  }

  predicate Apart(a: Span, b: Span) {
    a.end < b.start || b.end < a.start
  }

  predicate Within(a: Span, b: Span) {
    b.start <= a.start && a.end <= b.end
  }

  predicate Placed(s: Span, total: nat) {
    1 <= s.start <= s.end <= total
  }

  ghost predicate ApartFrom(nodes: seq<SpanNode>, i: nat, ids: set<nat>) {
    i < |nodes| && forall j <- ids :: j < |nodes| && j != i && Apart(nodes[i].span, nodes[j].span)
  }

  ghost predicate AllApart(nodes: seq<SpanNode>, ids: set<nat>) {
    forall i <- ids :: ApartFrom(nodes, i, ids - {i})
  }

  /** Spans lie in the file, children inside their parent, and siblings do not overlap. */
  ghost predicate Nested(nodes: seq<SpanNode>, roots: seq<nat>, total: nat) {
    && (forall i | 0 <= i < |nodes| :: Placed(nodes[i].span, total))
    && (forall p | 0 <= p < |nodes| ::
          forall c <- nodes[p].children :: c < |nodes| && Within(nodes[c].span, nodes[p].span))
    && AllApart(nodes, Elems(roots))
    && (forall p | 0 <= p < |nodes| :: AllApart(nodes, Elems(nodes[p].children)))
  }

  function SumLines(nodes: seq<SpanNode>, ids: seq<nat>): nat
    requires Below(ids, |nodes|)
  {
    if ids == [] then 0
    else
      var k := |ids| - 1;
      SumLines(nodes, ids[..k]) + Lines(nodes[ids[k]].span)
  }

  lemma ShownCard(nodes: seq<SpanNode>, ids: set<nat>, total: nat)
    ensures |Shown(nodes, ids, total)| <= total
    ensures |Shown(nodes, {}, total)| == total
  {
    var file := Span(1, total);
    if total > 0 { LinesCard(file); }
    forall n: nat ensures n in Shown(nodes, {}, total) <==> n in LinesOf(file) {
      assert Visible(nodes, {}, n);
      assert Hides(file, n) <==> 1 <= n <= total;
    }
    assert Shown(nodes, {}, total) == LinesOf(file);
    forall n <- Shown(nodes, ids, total) ensures n in LinesOf(file) { assert Hides(file, n); }
    var hidden := LinesOf(file) - Shown(nodes, ids, total);
    assert LinesOf(file) == hidden + Shown(nodes, ids, total);
  }

  lemma HideOne(nodes: seq<SpanNode>, ids: set<nat>, i: nat, total: nat)
    requires ApartFrom(nodes, i, ids) && Placed(nodes[i].span, total) && total <= MAX
    ensures |Shown(nodes, ids + {i}, total)| + Lines(nodes[i].span) == |Shown(nodes, ids, total)|
  {
    var own := LinesOf(nodes[i].span);
    LinesCard(nodes[i].span);
    var more, fewer := Shown(nodes, ids, total), Shown(nodes, ids + {i}, total);
    assert own <= more by {
      forall n <- own ensures Visible(nodes, ids, n) { }
    }
    forall n: nat ensures n in fewer <==> n in more - own {
      assert Hides(nodes[i].span, n) <==> n in own;
    }
    assert fewer == more - own;
  }

  /** Hiding spans that overlap neither each other nor the hidden ones costs their lines. */
  lemma {:induction false} HideMany(nodes: seq<SpanNode>, ids: set<nat>, more: seq<nat>, total: nat)
    requires Distinct(more) && total <= MAX
    requires Below(more, |nodes|)
    requires forall i <- more :: Placed(nodes[i].span, total) && ApartFrom(nodes, i, ids)
    requires AllApart(nodes, Elems(more))
    ensures |Shown(nodes, ids + Elems(more), total)| + SumLines(nodes, more) == |Shown(nodes, ids, total)|
    decreases more
  {
    if more == [] {
      assert ids + Elems(more) == ids;
    } else {
      var k := |more| - 1;
      var init, last := more[..k], more[k];
      assert Elems(more) == Elems(init) + {last};
      forall i <- init ensures i in more { }
      assert last in more && last !in Elems(init);
      forall i <- Elems(init) ensures ApartFrom(nodes, i, Elems(init) - {i}) {
        assert ApartFrom(nodes, i, Elems(more) - {i});
      }
      HideMany(nodes, ids, init, total);
      assert ApartFrom(nodes, last, ids + Elems(init)) by {
        assert ApartFrom(nodes, last, Elems(more) - {last});
      }
      HideOne(nodes, ids + Elems(init), last, total);
      assert ids + Elems(init) + {last} == ids + Elems(more);
    }
  }
}

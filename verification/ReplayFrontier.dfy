/** Which candidate settings are worth showing: `pareto` of
    scripts/session-stats/read_optimizer.py. */
module ReplayFrontier {
  import opened Common
  import opened StableSort

  datatype Result = Result(tokens: real, calls: nat, truncations: nat)

  predicate Le(a: Result, b: Result) {
    a.tokens < b.tokens || (a.tokens == b.tokens && a.calls <= b.calls)
  }

  predicate Sorted(s: seq<Result>) {
    forall i, j :: 0 <= i < j < |s| ==> Le(s[i], s[j])
  }

  lemma {:induction false} SortSorted(s: seq<Result>)
    ensures Sorted(Sort(s, Le)) && forall y :: y in Sort(s, Le) <==> y in s
  {
    SortInOrder(s, Le);
  }

  predicate Clean(r: Result, maxTruncations: nat, maxTokens: Option<real>) {
    r.truncations <= maxTruncations && (maxTokens.Some? ==> r.tokens <= maxTokens.value)
  }

  predicate AtLeastAsGood(a: Result, b: Result) {
    a.tokens <= b.tokens && a.calls <= b.calls
  }

  predicate Beyond(a: Result, b: Result) {
    a.tokens < b.tokens && a.calls > b.calls
  }

  /** More tokens always buy fewer calls. */
  predicate Staircase(s: seq<Result>) {
    forall i, j :: 0 <= i < j < |s| ==> Beyond(s[i], s[j])
  }

  ghost predicate Best(f: Result, results: seq<Result>, maxTruncations: nat, maxTokens: Option<real>) {
    forall r <- results :: Clean(r, maxTruncations, maxTokens) && AtLeastAsGood(r, f) ==> AtLeastAsGood(f, r)
  }

  ghost predicate Reached(r: Result, frontier: seq<Result>) {
    exists f <- frontier :: AtLeastAsGood(f, r)
  }

  method Keep(results: seq<Result>, maxTruncations: nat, maxTokens: Option<real>) returns (clean: seq<Result>)
    ensures forall r :: r in clean <==> r in results && Clean(r, maxTruncations, maxTokens)
  {
    clean := [];
    var i := 0;
    while i < |results|
      invariant 0 <= i <= |results|
      invariant forall r :: r in clean <==> r in results[..i] && Clean(r, maxTruncations, maxTokens)
    {
      TakeMore(results, i);
      if Clean(results[i], maxTruncations, maxTokens) { clean := clean + [results[i]]; }
      i := i + 1;
    }
    TakeAll(results, i);
  }

  lemma StaircaseIsBest(frontier: seq<Result>, results: seq<Result>, maxTruncations: nat, maxTokens: Option<real>)
    requires Staircase(frontier)
    requires forall r <- results :: Clean(r, maxTruncations, maxTokens) ==> Reached(r, frontier)
    ensures forall f <- frontier :: Best(f, results, maxTruncations, maxTokens)
  {
    forall f, r | f in frontier && r in results && Clean(r, maxTruncations, maxTokens) && AtLeastAsGood(r, f)
      ensures AtLeastAsGood(f, r)
    {
      var g :| g in frontier && AtLeastAsGood(g, r);
      var i :| 0 <= i < |frontier| && frontier[i] == f;
      var j :| 0 <= j < |frontier| && frontier[j] == g;
    }
  }

  ghost predicate AllReachedIn(rs: seq<Result>, frontier: seq<Result>) {
    forall r <- rs :: Reached(r, frontier)
  }

  ghost predicate From(frontier: seq<Result>, rs: seq<Result>) {
    forall f <- frontier :: f in rs
  }

  /** What the frontier is after the results `seen`. */
  ghost predicate Climbed(frontier: seq<Result>, seen: seq<Result>) {
    Staircase(frontier) && From(frontier, seen) && AllReachedIn(seen, frontier)
  }

  function ClimbOn(frontier: seq<Result>, r: Result): seq<Result> {
    if frontier == [] || r.calls < frontier[|frontier| - 1].calls then frontier + [r] else frontier
  }

  lemma ReachedMore(r: Result, frontier: seq<Result>, x: Result)
    requires Reached(r, frontier)
    ensures Reached(r, frontier + [x])
  {
    var f :| f in frontier && AtLeastAsGood(f, r);
    assert f in frontier + [x];
  }

  lemma ReachesItself(frontier: seq<Result>, x: Result)
    ensures Reached(x, frontier + [x])
  {
    assert x in frontier + [x];
  }

  lemma ClimbStep(frontier: seq<Result>, seen: seq<Result>, r: Result)
    requires Climbed(frontier, seen) && forall s <- seen :: Le(s, r)
    requires frontier == [] ==> seen == []
    ensures Climbed(ClimbOn(frontier, r), seen + [r])
  {
    if frontier == [] || r.calls < frontier[|frontier| - 1].calls {
      LastIsSmallest(frontier, seen, r);
      forall s <- seen ensures Reached(s, frontier + [r]) { ReachedMore(s, frontier, r); }
      ReachesItself(frontier, r);
    } else {
      LastReaches(frontier, seen, r);
    }
  }

  method Climb(sorted: seq<Result>) returns (frontier: seq<Result>)
    requires Sorted(sorted)
    ensures Climbed(frontier, sorted)
  {
    frontier := [];
    var bestCalls: Option<nat> := None;
    var i := 0;
    while i < |sorted|
      invariant 0 <= i <= |sorted| && Climbed(frontier, sorted[..i]) && (frontier == [] ==> i == 0)
      invariant bestCalls == if frontier == [] then None else Some(frontier[|frontier| - 1].calls)
    {
      var r := sorted[i];
      ClimbStep(frontier, sorted[..i], r);
      assert sorted[..i + 1] == sorted[..i] + [r];
      ghost var next := ClimbOn(frontier, r);
      if bestCalls.None? || r.calls < bestCalls.value {
        frontier := frontier + [r];
        bestCalls := Some(r.calls);
      }
      assert frontier == next;
      i := i + 1;
    }
    TakeAll(sorted, i);
  }

  /** The frontier: every admissible setting is matched by one of it, none of it is beaten, and
      along it fewer calls always cost more tokens. */
  method Pareto(results: seq<Result>, maxTruncations: nat, maxTokens: Option<real>) returns (frontier: seq<Result>)
    ensures forall f <- frontier :: f in results && Clean(f, maxTruncations, maxTokens)
    ensures forall r <- results :: Clean(r, maxTruncations, maxTokens) ==> Reached(r, frontier)
    ensures forall f <- frontier :: Best(f, results, maxTruncations, maxTokens)
    ensures Staircase(frontier)
  {
    var clean := Keep(results, maxTruncations, maxTokens);
    SortSorted(clean);
    frontier := Climb(Sort(clean, Le));
    StaircaseIsBest(frontier, results, maxTruncations, maxTokens);
  }

  lemma LastReaches(frontier: seq<Result>, seen: seq<Result>, r: Result)
    requires From(frontier, seen) && (forall s <- seen :: Le(s, r)) && frontier != []
    requires frontier[|frontier| - 1].calls <= r.calls
    ensures Reached(r, frontier)
  {
    assert frontier[|frontier| - 1] in frontier;
  }

  /** With fewer calls than the last on the frontier, a later result has more tokens. */
  lemma LastIsSmallest(frontier: seq<Result>, seen: seq<Result>, r: Result)
    requires Staircase(frontier) && From(frontier, seen) && forall s <- seen :: Le(s, r)
    requires frontier != [] ==> r.calls < frontier[|frontier| - 1].calls
    ensures Staircase(frontier + [r])
  {
    forall j | 0 <= j < |frontier| ensures Beyond(frontier[j], r) {
      assert frontier[j] in frontier;
      if j < |frontier| - 1 { assert Beyond(frontier[j], frontier[|frontier| - 1]); }
    }
  }
}

/** The reservoir sampler of scripts/tool_io.py, and why it is fair: counted over all
    sequences of random indices. */
module Reservoir {
  import opened Common

  // ---------- The sampler ----------

  function AddTo<T>(size: int, items: seq<T>, item: T, pick: nat): seq<T> {
    if size <= 0 then items
    else if |items| < size then items + [item]
    else if pick < size then items[pick := item]
    else items
  }

  /** Adding a whole stream; `picks[i]` is what the generator returns while `stream[i]` is
      added (it is asked only once the sample is full). */
  function AddAll<T>(size: int, stream: seq<T>, picks: seq<nat>): seq<T>
    requires |picks| == |stream|
  {
    if stream == [] then []
    else
      var n := |stream| - 1;
      AddTo(size, AddAll(size, stream[..n], picks[..n]), stream[n], picks[n])
  }

  class ReservoirSample<T> {
    const size: int
    var items: seq<T>
    var seen: nat

    predicate Valid()
      reads this
    {
      if size <= 0 then items == [] && seen == 0 else |items| == if seen < size then seen else size
    }

    constructor (size: int)
      ensures Valid() && this.size == size && items == [] && seen == 0
    {
      this.size := size;
      items, seen := [], 0;
    }

    /** `pick` is the generator's answer to "an index below `seen`", counting this item. */
    method Add(item: T, pick: nat)
      requires Valid() && pick <= seen
      modifies this
      ensures Valid() && items == AddTo(size, old(items), item, pick)
      ensures seen == if size <= 0 then 0 else old(seen) + 1
    {
      if size <= 0 { return; }
      seen := seen + 1;
      if |items| < size {
        items := items + [item];
        return;
      }
      var index := pick;
      if index < size { items := items[index := item]; }
    }
  }

  method SampleReservoir<T>(stream: seq<T>, size: int, picks: seq<nat>) returns (sample: seq<T>)
    requires |picks| == |stream| && forall i :: 0 <= i < |picks| ==> picks[i] == 0 || (size > 0 && picks[i] <= i)
    ensures sample == AddAll(size, stream, picks)
  {
    var s := new ReservoirSample<T>(size);
    var i := 0;
    while i < |stream|
      invariant 0 <= i <= |stream| && s.Valid() && fresh(s) && s.size == size
      invariant s.seen == if size <= 0 then 0 else i
      invariant s.items == AddAll(size, stream[..i], picks[..i])
    {
      assert stream[..i + 1][..i] == stream[..i] && picks[..i + 1][..i] == picks[..i];
      s.Add(stream[i], picks[i]);
      i := i + 1;
    }
    assert stream[..i] == stream && picks[..i] == picks;
    return s.items;
  }

  // ---------- Positions ----------

  /** The generator's answers since the sample was full, latest outermost. */
  datatype Draws = Start | Answer(earlier: Draws, pick: nat)

  function Count(c: Draws): nat {
    match c
    case Start => 0
    case Answer(d, _) => Count(d) + 1
  }

  /** The stream positions in a sample of size `k` after `k + Count(c)` items. */
  function Sample(k: nat, c: Draws): (s: seq<nat>)
    ensures |s| == k
  {
    match c
    case Start => seq(k, i => i)
    case Answer(d, r) => AddTo(k, Sample(k, d), k + Count(d), r)
  }

  /** Each answer is below the number of items seen, the one being added included. */
  predicate Legal(k: nat, c: Draws) {
    match c
    case Start => true
    case Answer(d, r) => Legal(k, d) && r <= k + Count(d)
  }

  /** Every way the generator can answer `m` times. */
  function Runs(k: nat, m: nat): set<Draws> {
    if m == 0 then {Start}
    else
      var next := Below(k + m);
      Extend(Runs(k, m - 1), d => next)
  }

  predicate Under(r: nat, n: nat) {
    r < n
  }

  function Below(n: nat): set<nat> {
    set r: nat | r < n && Under(r, n)
  }

  lemma {:induction false} BelowCard(n: nat)
    ensures |Below(n)| == n
  {
    if n > 0 {
      BelowCard(n - 1);
      assert Below(n) == Below(n - 1) + {n - 1} by {
        forall r: nat ensures r in Below(n) <==> r in Below(n - 1) + {n - 1} {
          assert Under(r, n) <==> r < n;
          assert Under(r, n - 1) <==> r < n - 1;
        }
      }
    }
  }

  function Extend(cs: set<Draws>, next: Draws -> set<nat>): set<Draws> {
    set c, r | c in cs && r in next(c) :: Answer(c, r)
  }

  ghost predicate Complete(all: set<Draws>, k: nat, m: nat) {
    forall c :: c in all <==> Legal(k, c) && Count(c) == m
  }

  lemma {:induction false} RunsComplete(k: nat, m: nat)
    ensures Complete(Runs(k, m), k, m)
    decreases m
  {
    if m == 0 {
      forall c ensures c in Runs(k, 0) <==> Legal(k, c) && Count(c) == 0 {
        assert Count(c) == 0 <==> c == Start;
      }
    } else {
      RunsComplete(k, m - 1);
    }
  }

  /** The answers given for the items from index `k` on. */
  function DrawsOf(k: nat, picks: seq<nat>): Draws {
    if |picks| <= k then Start
    else Answer(DrawsOf(k, picks[..|picks| - 1]), picks[|picks| - 1])
  }

  ghost predicate ReadsAt<T>(items: seq<T>, stream: seq<T>, positions: seq<nat>) {
    |items| == |positions| &&
    forall j :: 0 <= j < |items| ==> positions[j] < |stream| && items[j] == stream[positions[j]]
  }

  /** The sample of any stream is the stream read at the sampled positions. */
  lemma {:induction false} SampleIsPositions<T>(k: nat, stream: seq<T>, picks: seq<nat>)
    requires |picks| == |stream| && k <= |stream| && k > 0
    ensures ReadsAt(AddAll(k, stream, picks), stream, Sample(k, DrawsOf(k, picks)))
    ensures Count(DrawsOf(k, picks)) == |stream| - k
    decreases |stream|
  {
    var n := |stream| - 1;
    if k == |stream| {
      FillsUp(k, stream, picks);
    } else {
      SampleIsPositions(k, stream[..n], picks[..n]);
    }
  }

  /** Any stream of answers in range is one of the runs counted below. */
  lemma {:induction false} DrawsAreRuns(k: nat, picks: seq<nat>)
    requires k <= |picks| && forall i :: k <= i < |picks| ==> picks[i] <= i
    ensures Legal(k, DrawsOf(k, picks)) && Count(DrawsOf(k, picks)) == |picks| - k
    ensures DrawsOf(k, picks) in Runs(k, |picks| - k)
    decreases |picks|
  {
    if |picks| > k { DrawsAreRuns(k, picks[..|picks| - 1]); }
    RunsComplete(k, |picks| - k);
  }

  /** Answers that make up a run, behind anything while the sample fills up. */
  function PicksOf(k: nat, c: Draws): seq<nat> {
    match c
    case Start => seq(k, i => 0)
    case Answer(d, r) => PicksOf(k, d) + [r]
  }

  /** Every run that is counted below is given by some stream of answers in range. */
  lemma {:induction false} RunsAreDraws(k: nat, m: nat, c: Draws)
    requires c in Runs(k, m)
    ensures var picks := PicksOf(k, c);
            |picks| == k + m && DrawsOf(k, picks) == c && forall i :: 0 <= i < |picks| ==> picks[i] <= i
    decreases m
  {
    RunsComplete(k, m);
    if m > 0 {
      RunsComplete(k, m - 1);
      RunsAreDraws(k, m - 1, c.earlier);
      var picks := PicksOf(k, c);
      assert picks[..|picks| - 1] == PicksOf(k, c.earlier);
    }
  }

  lemma {:induction false} FillsUp<T>(k: nat, stream: seq<T>, picks: seq<nat>)
    requires |picks| == |stream| <= k
    ensures AddAll(k, stream, picks) == stream
    decreases |stream|
  {
    if stream != [] {
      var n := |stream| - 1;
      FillsUp(k, stream[..n], picks[..n]);
      assert stream[..n] + [stream[n]] == stream;
    }
  }

  // ---------- Counting ----------

  function Fibre<T, K(==)>(a: set<T>, key: T -> K, k: K): set<T> {
    set x | x in a && key(x) == k
  }

  lemma {:induction false} PartitionCard<T, K>(a: set<T>, key: T -> K, keys: set<K>, n: nat)
    requires forall x <- a :: key(x) in keys
    requires forall k <- keys :: |Fibre(a, key, k)| == n
    ensures |a| == |keys| * n
    decreases keys
  {
    if keys == {} {
      assert a == {};
    } else {
      var k :| k in keys;
      var part := Fibre(a, key, k);
      forall j | j in keys - {k} ensures |Fibre(a - part, key, j)| == n {
        assert Fibre(a - part, key, j) == Fibre(a, key, j);
      }
      PartitionCard(a - part, key, keys - {k}, n);
      assert |a| == |a - part| + |part|;
      assert |keys| * n == (|keys| - 1) * n + n;
    }
  }

  function Continued(c: Draws, rs: set<nat>): set<Draws> {
    set r | r in rs :: Answer(c, r)
  }

  lemma {:induction false} AnswerCard(c: Draws, rs: set<nat>)
    ensures |Continued(c, rs)| == |rs|
    decreases rs
  {
    if rs != {} {
      var r :| r in rs;
      AnswerCard(c, rs - {r});
      assert Continued(c, rs) == Continued(c, rs - {r}) + {Answer(c, r)};
    }
  }

  /** If every run has `n` continuations there are `n` times as many continued ones. */
  lemma ExtendCard(cs: set<Draws>, next: Draws -> set<nat>, n: nat)
    requires forall c <- cs :: |next(c)| == n
    ensures |Extend(cs, next)| == |cs| * n
  {
    var key := (e: Draws) => if e.Start? then e else e.earlier;
    forall c <- cs ensures |Fibre(Extend(cs, next), key, c)| == n {
      assert Fibre(Extend(cs, next), key, c) == Continued(c, next(c));
      AnswerCard(c, next(c));
    }
    PartitionCard(Extend(cs, next), key, cs, n);
  }

  /** All runs: `(k+1) (k+2) ... (k+m)` of them. */
  lemma RunsCard(k: nat, m: nat)
    requires m > 0
    ensures |Runs(k, m)| == |Runs(k, m - 1)| * (k + m)
  {
    var next := Below(k + m);
    BelowCard(k + m);
    ExtendCard(Runs(k, m - 1), d => next, k + m);
  }

  /** Positions in a sample are distinct and already seen. */
  lemma {:induction false} SampleDistinct(k: nat, c: Draws)
    requires Legal(k, c)
    ensures var s := Sample(k, c); Distinct(s) && forall i :: 0 <= i < k ==> s[i] < k + Count(c)
    decreases c
  {
    if c.Answer? { SampleDistinct(k, c.earlier); }
  }

  function IndexOf(s: seq<nat>, p: nat): nat
    requires p in s
    ensures IndexOf(s, p) < |s| && s[IndexOf(s, p)] == p
  {
    if s[0] == p then 0 else 1 + IndexOf(s[1..], p)
  }

  ghost predicate Continues(target: set<Draws>, base: set<Draws>, next: Draws -> set<nat>, d: Draws, r: nat) {
    Answer(d, r) in target <==> d in base && r in next(d)
  }

  /** One more answer, counted by what it continues: `target` holds the runs that continue a
      run `d` of `base` by an answer in `next(d)`, `n` for each. */
  lemma CountExtensions(k: nat, m: nat, base: set<Draws>, next: Draws -> set<nat>, target: set<Draws>, n: nat)
    requires forall c <- target :: Legal(k, c) && Count(c) == m + 1
    requires forall d <- base :: |next(d)| == n
    requires forall d <- base, r <- next(d) :: Legal(k, d) && Count(d) == m && r <= k + m
    requires forall d, r: nat :: Legal(k, d) && Count(d) == m && r <= k + m ==> Continues(target, base, next, d, r)
    ensures |target| == |base| * n
  {
    forall c <- target ensures c in Extend(base, next) {
      assert Continues(target, base, next, c.earlier, c.pick);
    }
    forall c <- Extend(base, next) ensures c in target {
      assert Continues(target, base, next, c.earlier, c.pick);
    }
    assert target == Extend(base, next);
    ExtendCard(base, next, n);
  }

  // ---------- One position ----------

  /** The runs after which position `p` is in the sample. */
  function Keeping(runs: set<Draws>, k: nat, p: nat): set<Draws> {
    set c | c in runs && p in Sample(k, c)
  }

  /** The answers that do not overwrite position `p`. */
  function Sparing(k: nat, p: nat, d: Draws): set<nat> {
    if p in Sample(k, d) then Below(k + Count(d) + 1) - {IndexOf(Sample(k, d), p)} else {}
  }

  lemma {:induction false} KeepsIff(s: seq<nat>, k: nat, last: nat, r: nat, p: nat)
    requires Distinct(s) && |s| == k && p != last
    ensures p in AddTo(k, s, last, r) <==> p in s && (r >= k || r != IndexOf(s, p))
  {
    if r < k {
      var s' := s[r := last];
      if p in s {
        var i := IndexOf(s, p);
        if r != i { assert s'[i] == p; }
      }
      if p in s' {
        var j :| 0 <= j < k && s'[j] == p;
        assert s[j] == p;
      }
    }
  }

  lemma {:induction false} SparingMember(k: nat, p: nat, d: Draws, r: nat)
    requires p in Sample(k, d) && r <= k + Count(d)
    ensures r in Sparing(k, p, d) <==> r != IndexOf(Sample(k, d), p)
  {
    assert Under(r, k + Count(d) + 1);
  }

  lemma {:induction false} KeepsOldIff(k: nat, p: nat, d: Draws, r: nat)
    requires Legal(k, d) && p < k + Count(d) && r <= k + Count(d)
    ensures p in Sample(k, Answer(d, r)) <==> p in Sample(k, d) && r in Sparing(k, p, d)
  {
    SampleDistinct(k, d);
    KeepsIff(Sample(k, d), k, k + Count(d), r, p);
    if p in Sample(k, d) { SparingMember(k, p, d, r); }
  }

  lemma {:induction false} SparingCard(k: nat, p: nat, d: Draws)
    requires p in Sample(k, d)
    ensures |Sparing(k, p, d)| == k + Count(d)
  {
    BelowCard(k + Count(d) + 1);
    assert Under(IndexOf(Sample(k, d), p), k + Count(d) + 1);
  }

  /** An old position survives the next item for all but one answer of the generator. */
  lemma KeepingOld(k: nat, m: nat, p: nat, before: set<Draws>, after: set<Draws>)
    requires Complete(before, k, m) && Complete(after, k, m + 1) && p < k + m
    ensures |Keeping(after, k, p)| == |Keeping(before, k, p)| * (k + m)
  {
    var next := (d: Draws) => Sparing(k, p, d);
    var base, target := Keeping(before, k, p), Keeping(after, k, p);
    forall d <- base ensures |next(d)| == k + m { SparingCard(k, p, d); }
    forall d, r: nat | Legal(k, d) && Count(d) == m && r <= k + m ensures Continues(target, base, next, d, r) {
      OldContinues(k, m, p, before, after, d, r);
    }
    CountExtensions(k, m, base, next, target, k + m);
  }

  lemma {:induction false} OldContinues(k: nat, m: nat, p: nat, before: set<Draws>, after: set<Draws>, d: Draws, r: nat)
    requires Complete(before, k, m) && Complete(after, k, m + 1) && p < k + m
    requires Legal(k, d) && Count(d) == m && r <= k + m
    ensures Answer(d, r) in Keeping(after, k, p) <==> d in Keeping(before, k, p) && r in Sparing(k, p, d)
  {
    InRuns(k, m, before, after, d, r);
    KeepsOldIff(k, p, d, r);
  }

  lemma {:induction false} KeepsNewIff(k: nat, d: Draws, r: nat)
    requires Legal(k, d) && r <= k + Count(d)
    ensures k + Count(d) in Sample(k, Answer(d, r)) <==> r < k
  {
    SampleDistinct(k, d);
    if r < k { assert Sample(k, Answer(d, r))[r] == k + Count(d); }
  }

  /** The newest position enters the sample for `k` of the answers. */
  lemma KeepingNew(k: nat, m: nat, before: set<Draws>, after: set<Draws>)
    requires Complete(before, k, m) && Complete(after, k, m + 1)
    ensures |Keeping(after, k, k + m)| == |before| * k
  {
    var hits := Below(k);
    BelowCard(k);
    var next := (d: Draws) => hits;
    var target := Keeping(after, k, k + m);
    forall d, r: nat | Legal(k, d) && Count(d) == m && r <= k + m ensures Continues(target, before, next, d, r) {
      KeepsNewIff(k, d, r);
    }
    CountExtensions(k, m, before, next, target, k);
  }

  /** Of all runs, a fraction of exactly `k / (k + m)` keep position `p`. */
  ghost predicate Even(runs: set<Draws>, k: nat, m: nat, p: nat) {
    |Keeping(runs, k, p)| * (k + m) == k * |runs|
  }

  lemma NextRuns(k: nat, m: nat)
    requires m > 0
    ensures Complete(Runs(k, m - 1), k, m - 1) && Complete(Runs(k, m), k, m)
    ensures |Runs(k, m)| == |Runs(k, m - 1)| * (k + m)
  {
    RunsCard(k, m);
    RunsComplete(k, m - 1);
    RunsComplete(k, m);
  }

  /** After `n = k + m` items every position, early or late, is in the sample after the same
      number of runs. */
  lemma {:induction false} EveryPositionEquallyLikely(k: nat, m: nat, p: nat)
    requires k > 0 && p < k + m
    ensures Even(Runs(k, m), k, m, p)
    decreases m
  {
    if m == 0 {
      StartKeepsAll(k, p);
    } else {
      NextRuns(k, m);
      if p < k + m - 1 { EveryPositionEquallyLikely(k, m - 1, p); }
      PositionStep(k, m - 1, p, Runs(k, m - 1), Runs(k, m));
    }
  }

  lemma {:induction false} StartKeepsAll(k: nat, p: nat)
    requires p < k
    ensures Even(Runs(k, 0), k, 0, p)
  {
    assert Sample(k, Start)[p] == p;
    assert Keeping(Runs(k, 0), k, p) == {Start};
  }

  lemma PositionStep(k: nat, m: nat, p: nat, before: set<Draws>, after: set<Draws>)
    requires Complete(before, k, m) && Complete(after, k, m + 1) && |after| == |before| * (k + m + 1)
    requires p <= k + m && (p < k + m ==> Even(before, k, m, p))
    ensures Even(after, k, m + 1, p)
  {
    if p == k + m {
      KeepingNew(k, m, before, after);
    } else {
      KeepingOld(k, m, p, before, after);
    }
    Regroup(|Keeping(after, k, p)|, k, |before|, k + m + 1);
  }

  lemma Regroup(kept: nat, k: nat, runs: nat, n: nat)
    requires kept == k * runs
    ensures kept * n == k * (runs * n)
  {
  }

  // ---------- Whole samples ----------

  /** The runs after which the sample is exactly the set `chosen`. */
  function Yielding(runs: set<Draws>, k: nat, chosen: set<nat>): set<Draws> {
    set c | c in runs && Elems(Sample(k, c)) == chosen
  }

  function Factorial(m: nat): nat {
    if m == 0 then 1 else m * Factorial(m - 1)
  }

  lemma {:induction false} ElemsCard(s: seq<nat>)
    requires Distinct(s)
    ensures |Elems(s)| == |s|
    decreases s
  {
    if s != [] {
      ElemsCard(s[1..]);
      assert Elems(s) == {s[0]} + Elems(s[1..]);
    }
  }

  lemma SubsetCard(a: set<nat>, b: set<nat>)
    requires a <= b
    ensures |a| <= |b|
  {
    assert |b - a| == |b| - |a|;
  }

  lemma SameCardSubset(a: set<nat>, b: set<nat>)
    requires a <= b && |a| == |b|
    ensures a == b
  {
    assert |b - a| == |b| - |a|;
  }

  lemma UpdateElems(s: seq<nat>, r: nat, x: nat)
    requires r < |s| && x !in s && Distinct(s)
    ensures Elems(s[r := x]) == Elems(s) - {s[r]} + {x}
  {
    forall y <- Elems(s) - {s[r]} ensures y in s[r := x] {
      var i :| 0 <= i < |s| && s[i] == y;
      assert s[r := x][i] == y;
    }
    assert s[r := x][r] == x;
  }

  /** The first index of `s` whose value is not in `t`, or `|s|`. */
  function Missing(s: seq<nat>, t: set<nat>): (i: nat)
    ensures i <= |s| && (forall j :: 0 <= j < i ==> s[j] in t) && (i < |s| ==> s[i] !in t)
  {
    if s == [] || s[0] !in t then 0 else 1 + Missing(s[1..], t)
  }

  function MissingValue(s: seq<nat>, t: set<nat>): nat {
    if Missing(s, t) < |s| then s[Missing(s, t)] else 0
  }

  /** A distinct sequence that covers all of `t` has exactly one value more. */
  lemma {:induction false} OneOver(s: seq<nat>, t: set<nat>)
    requires Distinct(s) && |t| + 1 == |s| && t <= Elems(s)
    ensures var i := Missing(s, t); i < |s| && Elems(s) - {s[i]} == t
  {
    ElemsCard(s);
    var i := Missing(s, t);
    if i < |s| {
      SameCardSubset(t, Elems(s) - {s[i]});
    } else {
      SubsetCard(Elems(s), t);
    }
  }

  /** When the last position is not chosen, the last answer must have missed the sample. */
  lemma YieldWithoutLast(k: nat, m: nat, chosen: set<nat>, before: set<Draws>, after: set<Draws>)
    requires Complete(before, k, m) && Complete(after, k, m + 1) && k + m !in chosen
    ensures |Yielding(after, k, chosen)| == |Yielding(before, k, chosen)| * (m + 1)
  {
    var misses := Below(k + m + 1) - Below(k);
    BelowCard(k);
    BelowCard(k + m + 1);
    assert Below(k) <= Below(k + m + 1);
    var next := (d: Draws) => misses;
    var base, target := Yielding(before, k, chosen), Yielding(after, k, chosen);
    forall d, r: nat | Legal(k, d) && Count(d) == m && r <= k + m ensures Continues(target, base, next, d, r) {
      KeepsNewIff(k, d, r);
    }
    CountExtensions(k, m, base, next, target, m + 1);
  }

  /** The runs whose sample covers `rest`, which is one position short of a sample. */
  function Covering(runs: set<Draws>, k: nat, rest: set<nat>): set<Draws> {
    set c | c in runs && rest <= Elems(Sample(k, c))
  }

  /** Overwriting index `r` leaves `rest` and the new value if and only if `r` is the one index
      outside `rest`. */
  lemma SwapIff(s: seq<nat>, rest: set<nat>, r: nat, last: nat)
    requires Distinct(s) && r < |s| && |rest| + 1 == |s| && last !in Elems(s) && last !in rest
    ensures Elems(s[r := last]) == rest + {last} <==> rest <= Elems(s) && r == Missing(s, rest)
  {
    UpdateElems(s, r, last);
    if rest <= Elems(s) { OneOver(s, rest); }
    if Elems(s) - {s[r]} + {last} == rest + {last} {
      assert Elems(s) - {s[r]} == rest by {
        assert Elems(s) - {s[r]} == (Elems(s) - {s[r]} + {last}) - {last};
        assert rest == (rest + {last}) - {last};
      }
      var i := Missing(s, rest);
      assert s[i] in Elems(s) && s[i] !in rest;
      assert s[i] == s[r];
    }
  }

  lemma {:induction false} WithLastIff(k: nat, rest: set<nat>, d: Draws, r: nat)
    requires |rest| + 1 == k && rest <= Below(k + Count(d)) && Legal(k, d) && r <= k + Count(d)
    ensures Elems(Sample(k, Answer(d, r))) == rest + {k + Count(d)} <==>
            rest <= Elems(Sample(k, d)) && r == Missing(Sample(k, d), rest)
  {
    SampleDistinct(k, d);
    SampleAnswer(k, d, r);
    NotBelow(k + Count(d));
    LastIff(Sample(k, d), Sample(k, Answer(d, r)), k, rest, k + Count(d), r);
  }

  lemma NotBelow(n: nat)
    ensures n !in Below(n)
  {
    assert n in Below(n) <==> n < n;
  }

  lemma {:induction false} LastIff(s: seq<nat>, next: seq<nat>, k: nat, rest: set<nat>, last: nat, r: nat)
    requires Distinct(s) && |s| == k == |rest| + 1 && last !in rest && forall i :: 0 <= i < k ==> s[i] < last
    requires next == AddTo(k, s, last, r)
    ensures Elems(next) == rest + {last} <==> rest <= Elems(s) && r == Missing(s, rest)
  {
    assert last !in Elems(s);
    if r < k {
      SwapIff(s, rest, r, last);
    } else {
      assert last in rest + {last};
      if rest <= Elems(s) { OneOver(s, rest); }
    }
  }

  lemma YieldWithLast(k: nat, m: nat, rest: set<nat>, before: set<Draws>, after: set<Draws>)
    requires Complete(before, k, m) && Complete(after, k, m + 1)
    requires |rest| + 1 == k && rest <= Below(k + m)
    ensures |Yielding(after, k, rest + {k + m})| == |Covering(before, k, rest)|
  {
    var next := (d: Draws) => {Missing(Sample(k, d), rest)};
    var base, target := Covering(before, k, rest), Yielding(after, k, rest + {k + m});
    forall d, r: nat | Legal(k, d) && Count(d) == m && r <= k + m ensures Continues(target, base, next, d, r) {
      LastContinues(k, m, rest, before, after, d, r);
    }
    CountExtensions(k, m, base, next, target, 1);
  }

  lemma {:induction false} LastContinues(k: nat, m: nat, rest: set<nat>, before: set<Draws>, after: set<Draws>,
                                         d: Draws, r: nat)
    requires Complete(before, k, m) && Complete(after, k, m + 1)
    requires |rest| + 1 == k && rest <= Below(k + m) && Legal(k, d) && Count(d) == m && r <= k + m
    ensures Answer(d, r) in Yielding(after, k, rest + {k + m})
       <==> d in Covering(before, k, rest) && r == Missing(Sample(k, d), rest)
  {
    var c := Answer(d, r);
    InRuns(k, m, before, after, d, r);
    InYielding(after, k, rest + {k + m}, c);
    InCovering(before, k, rest, d);
    WithLastIff(k, rest, d, r);
  }

  lemma {:induction false} InYielding(runs: set<Draws>, k: nat, chosen: set<nat>, c: Draws)
    requires c in runs
    ensures c in Yielding(runs, k, chosen) <==> Elems(Sample(k, c)) == chosen
  {
  }

  lemma {:induction false} InCovering(runs: set<Draws>, k: nat, rest: set<nat>, c: Draws)
    requires c in runs
    ensures c in Covering(runs, k, rest) <==> rest <= Elems(Sample(k, c))
  {
  }

  lemma {:induction false} InRuns(k: nat, m: nat, before: set<Draws>, after: set<Draws>, d: Draws, r: nat)
    requires Complete(before, k, m) && Complete(after, k, m + 1) && Legal(k, d) && Count(d) == m && r <= k + m
    ensures Answer(d, r) in after && d in before
  {
  }

  lemma {:induction false} SampleAnswer(k: nat, d: Draws, r: nat)
    ensures Sample(k, Answer(d, r)) == AddTo(k, Sample(k, d), k + Count(d), r)
  {
  }

  lemma {:induction false} CoveringFibre(k: nat, m: nat, rest: set<nat>, key: Draws -> nat, x: nat, runs: set<Draws>)
    requires Complete(runs, k, m) && |rest| + 1 == k && x !in rest
    requires forall d :: key(d) == MissingValue(Sample(k, d), rest)
    ensures Fibre(Covering(runs, k, rest), key, x) == Yielding(runs, k, rest + {x})
  {
    forall d <- runs
      ensures rest <= Elems(Sample(k, d)) && key(d) == x <==> Elems(Sample(k, d)) == rest + {x}
    {
      var s := Sample(k, d);
      SampleDistinct(k, d);
      if rest <= Elems(s) {
        OneOver(s, rest);
        assert Elems(s) == rest + {s[Missing(s, rest)]};
      }
    }
  }

  /** Runs covering `rest`, sorted by the one position their sample has beside it. */
  lemma CoveringSplits(k: nat, m: nat, rest: set<nat>, runs: set<Draws>, keys: set<nat>, n: nat)
    requires Complete(runs, k, m) && |rest| + 1 == k && keys == Below(k + m) - rest
    requires EachBeside(runs, k, rest, keys, n)
    ensures |Covering(runs, k, rest)| == |keys| * n
  {
    var key := (d: Draws) => MissingValue(Sample(k, d), rest);
    forall d <- Covering(runs, k, rest) ensures key(d) in keys {
      SampleDistinct(k, d);
      OneOver(Sample(k, d), rest);
    }
    forall x <- keys ensures |Fibre(Covering(runs, k, rest), key, x)| == n {
      CoveringFibre(k, m, rest, key, x, runs);
    }
    PartitionCard(Covering(runs, k, rest), key, keys, n);
  }

  lemma OnlyStart(k: nat, chosen: set<nat>)
    requires |chosen| == k && chosen <= Below(k)
    ensures |Yielding({Start}, k, chosen)| == 1
  {
    SampleDistinct(k, Start);
    BelowCard(k);
    ElemsCard(Sample(k, Start));
    SameCardSubset(chosen, Below(k));
    SameCardSubset(Elems(Sample(k, Start)), Below(k));
    assert Yielding({Start}, k, chosen) == {Start};
  }

  ghost predicate AllYield(runs: set<Draws>, k: nat, m: nat, n: nat) {
    forall t :: |t| == k && t <= Below(k + m) ==> |Yielding(runs, k, t)| == n
  }

  lemma OneBeside(runs: set<Draws>, k: nat, m: nat, rest: set<nat>, x: nat, n: nat)
    requires AllYield(runs, k, m, n) && |rest| + 1 == k && rest <= Below(k + m)
    requires x in Below(k + m) && x !in rest
    ensures |Yielding(runs, k, rest + {x})| == n
  {
    var t := rest + {x};
    assert |t| == k && t <= Below(k + m);
  }

  ghost predicate EachBeside(runs: set<Draws>, k: nat, rest: set<nat>, keys: set<nat>, n: nat) {
    forall x <- keys :: |Yielding(runs, k, rest + {x})| == n
  }

  lemma AllBeside(runs: set<Draws>, k: nat, m: nat, rest: set<nat>, keys: set<nat>, n: nat)
    requires AllYield(runs, k, m, n) && |rest| + 1 == k && rest <= Below(k + m)
    requires keys == Below(k + m) - rest
    ensures EachBeside(runs, k, rest, keys, n) && |keys| == m + 1
  {
    BelowCard(k + m);
    assert |keys| == |Below(k + m)| - |rest|;
    forall x <- keys ensures |Yielding(runs, k, rest + {x})| == n {
      OneBeside(runs, k, m, rest, x, n);
    }
  }

  lemma StepWithLast(k: nat, m: nat, rest: set<nat>, before: set<Draws>, after: set<Draws>, n: nat)
    requires Complete(before, k, m) && Complete(after, k, m + 1) && AllYield(before, k, m, n)
    requires |rest| + 1 == k && rest <= Below(k + m)
    ensures |Yielding(after, k, rest + {k + m})| == (m + 1) * n
  {
    var keys := Below(k + m) - rest;
    YieldWithLast(k, m, rest, before, after);
    AllBeside(before, k, m, rest, keys, n);
    CoveringSplits(k, m, rest, before, keys, n);
  }

  lemma StepWithoutLast(k: nat, m: nat, chosen: set<nat>, before: set<Draws>, after: set<Draws>, n: nat)
    requires Complete(before, k, m) && Complete(after, k, m + 1) && AllYield(before, k, m, n)
    requires |chosen| == k && chosen <= Below(k + m)
    ensures |Yielding(after, k, chosen)| == (m + 1) * n
  {
    assert k + m !in chosen by { assert k + m in Below(k + m) <==> k + m < k + m; }
    YieldWithoutLast(k, m, chosen, before, after);
  }

  lemma SplitLast(n: nat, chosen: set<nat>)
    requires chosen <= Below(n + 1)
    ensures chosen - {n} <= Below(n)
  {
    forall x <- chosen - {n} ensures x in Below(n) {
      assert x in Below(n + 1);
      assert Under(x, n);
    }
  }

  lemma SubsetStep(k: nat, m: nat, chosen: set<nat>, before: set<Draws>, after: set<Draws>, n: nat)
    requires Complete(before, k, m) && Complete(after, k, m + 1) && AllYield(before, k, m, n)
    requires k > 0 && |chosen| == k && chosen <= Below(k + m + 1)
    ensures |Yielding(after, k, chosen)| == (m + 1) * n
  {
    var last := k + m;
    SplitLast(last, chosen);
    if last in chosen {
      StepWithLast(k, m, chosen - {last}, before, after, n);
      assert chosen - {last} + {last} == chosen;
    } else {
      assert chosen - {last} == chosen;
      StepWithoutLast(k, m, chosen, before, after, n);
    }
  }

  /** Every set of `k` positions is the sample after exactly `m!` runs, whatever the set: the
      sample is uniform over all subsets, not just position by position. */
  lemma {:induction false} EverySubsetEquallyLikely(k: nat, m: nat)
    requires k > 0
    ensures AllYield(Runs(k, m), k, m, Factorial(m))
    decreases m
  {
    forall t | |t| == k && t <= Below(k + m) ensures |Yielding(Runs(k, m), k, t)| == Factorial(m) {
      if m == 0 {
        OnlyStart(k, t);
      } else {
        RunsComplete(k, m - 1);
        RunsComplete(k, m);
        EverySubsetEquallyLikely(k, m - 1);
        SubsetStep(k, m - 1, t, Runs(k, m - 1), Runs(k, m), Factorial(m - 1));
      }
    }
  }
}

/** The copy-paste detector for edit payloads (`find_longest_repeat` in
    scripts/session-stats/sync.py): three nested loops with a running best. */
module LongestRepeat {
  import opened Common

  /** A payload line; only whether it carries at least four characters matters, beside
      equality. */
  datatype Row = Row(text: string, meaningful: bool)

  function Meaningful(rows: seq<Row>): nat {
    if rows == [] then 0 else (if rows[0].meaningful then 1 else 0) + Meaningful(rows[1..])
  }

  /** `k` rows from `i` are repeated from `j`, without overlapping. */
  predicate Repeats(block: seq<Row>, i: nat, j: nat, k: nat) {
    i + k <= j && j + k <= |block| && block[i..i + k] == block[j..j + k]
  }

  /** The longest non-overlapping repeat at `i` and `j`. */
  ghost predicate Maximal(block: seq<Row>, i: nat, j: nat, k: nat) {
    Repeats(block, i, j, k) && !Repeats(block, i, j, k + 1)
  }

  predicate Telling(block: seq<Row>, i: nat, k: nat)
    requires i + k <= |block|
  {
    Meaningful(block[i..i + k]) >= Max((k + 1) / 2, 2)
  }

  /** A repeat the detector may report. */
  ghost predicate Candidate(block: seq<Row>, minLen: nat, i: nat, j: nat, k: nat) {
    i < j && Maximal(block, i, j, k) && k >= minLen && Telling(block, i, k)
  }

  method CountMeaningful(rows: seq<Row>) returns (n: nat)
    ensures n == Meaningful(rows)
  {
    n := 0;
    assert rows[0..] == rows;
    for i := 0 to |rows|
      invariant n + Meaningful(rows[i..]) == Meaningful(rows)
    {
      assert rows[i..][1..] == rows[i + 1..];
      if rows[i].meaningful { n := n + 1; }
    }
  }

  method MatchLength(block: seq<Row>, i: nat, j: nat) returns (k: nat)
    requires i <= j <= |block|
    ensures Maximal(block, i, j, k)
  {
    k := 0;
    while i + k < j && j + k < |block| && block[i + k] == block[j + k]
      invariant i + k <= j && j + k <= |block|
      invariant block[i..i + k] == block[j..j + k]
    {
      RepeatsMore(block, i, j, k);
      k := k + 1;
    }
    if Repeats(block, i, j, k + 1) { RepeatsLast(block, i, j, k); }
  }

  lemma RepeatsMore(block: seq<Row>, i: nat, j: nat, k: nat)
    requires i + k < |block| && j + k < |block| && block[i..i + k] == block[j..j + k] && block[i + k] == block[j + k]
    ensures block[i..i + (k + 1)] == block[j..j + (k + 1)]
  {
    assert block[i..i + (k + 1)] == block[i..i + k] + [block[i + k]];
    assert block[j..j + (k + 1)] == block[j..j + k] + [block[j + k]];
  }

  lemma RepeatsLast(block: seq<Row>, i: nat, j: nat, k: nat)
    requires Repeats(block, i, j, k + 1)
    ensures block[i + k] == block[j + k]
  {
    assert block[i..i + k + 1][k] == block[j..j + k + 1][k];
  }

  lemma MaximalUnique(block: seq<Row>, i: nat, j: nat, k: nat, m: nat)
    requires Maximal(block, i, j, k) && Maximal(block, i, j, m)
    ensures k == m
  {
    if k < m { ShorterRepeats(block, i, j, m, k + 1); }
    if m < k { ShorterRepeats(block, i, j, k, m + 1); }
  }

  lemma ShorterRepeats(block: seq<Row>, i: nat, j: nat, k: nat, m: nat)
    requires Repeats(block, i, j, k) && m <= k
    ensures Repeats(block, i, j, m)
  {
    assert block[i..i + m] == block[i..i + k][..m];
    assert block[j..j + m] == block[j..j + k][..m];
  }

  /** No pair visited so far beats `best`. */
  ghost predicate BestSoFar(block: seq<Row>, minLen: nat, best: Option<(nat, nat)>, i0: nat, j0: nat) {
    forall i: nat, j: nat, k: nat :: Candidate(block, minLen, i, j, k) && (i < i0 || (i == i0 && j < j0)) ==>
      best.Some? && k <= best.value.1 && (k == best.value.1 ==> best.value.0 <= i)
  }

  /** Looking at one more pair, whose repeat has length `k`. */
  lemma BestStep(block: seq<Row>, minLen: nat, before: Option<(nat, nat)>, best: Option<(nat, nat)>, i: nat,
                 j: nat, k: nat)
    requires BestSoFar(block, minLen, before, i, j) && Maximal(block, i, j, k)
    requires before.Some? ==> before.value.0 <= i
    requires if Candidate(block, minLen, i, j, k) && (before.None? || k > before.value.1) then best == Some((i, k))
             else best == before
    ensures BestSoFar(block, minLen, best, i, j + 1)
  {
    forall i': nat, j': nat, k': nat | Candidate(block, minLen, i', j', k') && (i' < i || (i' == i && j' < j + 1))
      ensures best.Some? && k' <= best.value.1 && (k' == best.value.1 ==> best.value.0 <= i')
    {
      if i' == i && j' == j { MaximalUnique(block, i, j, k, k'); }
    }
  }

  /** The result is optimal over all pairs of positions, not only the ones the loops visit:
      none exactly when no maximal repeat of at least `minLen` rows is telling, otherwise the
      length of a longest one and the first place one starts. */
  method FindLongestRepeat(block: seq<Row>, minLen: nat) returns (best: Option<(nat, nat)>)
    ensures best.None? ==> forall i: nat, j: nat, k: nat :: !Candidate(block, minLen, i, j, k)
    ensures best.Some? ==>
              (exists j: nat :: Candidate(block, minLen, best.value.0, j, best.value.1)) &&
              forall i: nat, j: nat, k: nat :: Candidate(block, minLen, i, j, k) ==>
                k <= best.value.1 && (k == best.value.1 ==> best.value.0 <= i)
  {
    best := None;
    var n := |block|;
    if n < 2 * minLen { return; }
    var i := 0;
    while i < n - minLen + 1
      invariant 0 <= i <= n - minLen + 1
      invariant best.Some? ==> best.value.0 <= i && exists j: nat :: Candidate(block, minLen, best.value.0, j, best.value.1)
      invariant BestSoFar(block, minLen, best, i, 0)
    {
      var j := i + minLen;
      assert BestSoFar(block, minLen, best, i, j);
      while j < n - minLen + 1
        invariant i + minLen <= j
        invariant best.Some? ==> best.value.0 <= i && exists m: nat :: Candidate(block, minLen, best.value.0, m, best.value.1)
        invariant BestSoFar(block, minLen, best, i, j)
      {
        var k := MatchLength(block, i, j);
        var before := best;
        if k >= minLen {
          var meaningful := CountMeaningful(block[i..i + k]);
          if meaningful >= Max((k + 1) / 2, 2) {
            assert i < j && Candidate(block, minLen, i, j, k);
            if best.None? || k > best.value.1 { best := Some((i, k)); }
          }
        }
        BestStep(block, minLen, before, best, i, j, k);
        j := j + 1;
      }
      i := i + 1;
    }
  }

  // ---------- What the optimum is taken over ----------

  /** How far the rows from `i`, up to `end`, agree with those from `j`. */
  function Agreement(block: seq<Row>, i: nat, j: nat, end: nat): (k: nat)
    requires i <= end <= |block| && j <= |block|
    ensures i + k <= end && j + k <= |block|
    decreases end - i
  {
    if i < end && j < |block| && block[i] == block[j] then 1 + Agreement(block, i + 1, j + 1, end) else 0
  }

  /** How far the rows from `i` are repeated from `j`: what the innermost loop counts. */
  function Extension(block: seq<Row>, i: nat, j: nat): (k: nat)
    requires i <= j <= |block|
    ensures i + k <= j && j + k <= |block|
  {
    Agreement(block, i, j, j)
  }

  lemma {:induction false} ExtensionMatches(block: seq<Row>, i: nat, j: nat, end: nat)
    requires i <= end <= |block| && j <= |block|
    ensures var k := Agreement(block, i, j, end);
            block[i..i + k] == block[j..j + k]
            && (i + k < end && j + k < |block| ==> block[i + k] != block[j + k])
    decreases end - i
  {
    var k := Agreement(block, i, j, end);
    if k > 0 {
      ExtensionMatches(block, i + 1, j + 1, end);
      OneMoreMatches(block, i, j, k - 1);
    }
  }

  lemma OneMoreMatches(block: seq<Row>, i: nat, j: nat, m: nat)
    requires i + 1 + m <= |block| && j + 1 + m <= |block|
    requires block[i] == block[j] && block[i + 1..i + 1 + m] == block[j + 1..j + 1 + m]
    ensures block[i..i + 1 + m] == block[j..j + 1 + m]
  {
    SliceHead(block, i, i + 1 + m);
    SliceHead(block, j, j + 1 + m);
  }

  lemma ExtensionIsMaximal(block: seq<Row>, i: nat, j: nat)
    requires i < j <= |block|
    ensures Maximal(block, i, j, Extension(block, i, j))
  {
    var k := Extension(block, i, j);
    ExtensionMatches(block, i, j, j);
    if Repeats(block, i, j, k + 1) { RepeatsLast(block, i, j, k); }
  }

  /** A repeat that the documentation speaks of: long enough, and half of it meaningful. */
  predicate Promised(block: seq<Row>, minLen: nat, i: nat, j: nat, k: nat) {
    i < j && Repeats(block, i, j, k) && k >= minLen && Telling(block, i, k)
  }

  /** Of two positions that have a promised repeat, one is counted if and only if the whole
      stretch that agrees is meaningful enough, not just a part of it. */
  lemma CountedIffExtensionTelling(block: seq<Row>, minLen: nat, i: nat, j: nat, k: nat)
    requires Promised(block, minLen, i, j, k)
    ensures Extension(block, i, j) >= k
    ensures (exists m: nat :: Candidate(block, minLen, i, j, m)) <==> Telling(block, i, Extension(block, i, j))
  {
    var whole := Extension(block, i, j);
    ExtensionIsMaximal(block, i, j);
    if whole < k { ShorterRepeats(block, i, j, k, whole + 1); }
    if Telling(block, i, whole) { assert Candidate(block, minLen, i, j, whole); }
    if m: nat :| Candidate(block, minLen, i, j, m) { MaximalUnique(block, i, j, m, whole); }
  }

  lemma {:induction false} AllCount(rows: seq<Row>)
    requires forall r <- rows :: r.meaningful
    ensures Meaningful(rows) == |rows|
    decreases rows
  {
    if rows != [] {
      assert rows[0] in rows;
      AllCount(rows[1..]);
    }
  }

  /** Where every line has at least four characters, a repeat is found if and only if there is
      one. */
  lemma FoundIffRepeated(block: seq<Row>, minLen: nat)
    requires minLen >= 2 && forall r <- block :: r.meaningful
    ensures (exists i: nat, j: nat, k: nat :: Candidate(block, minLen, i, j, k))
       <==> exists i: nat, j: nat, k: nat :: i < j && k >= minLen && Repeats(block, i, j, k)
  {
    if i: nat, j: nat, k: nat :| i < j && k >= minLen && Repeats(block, i, j, k) {
      var whole := Extension(block, i, j);
      ExtensionIsMaximal(block, i, j);
      if whole < k { ShorterRepeats(block, i, j, k, whole + 1); }
      AllCount(block[i..i + whole]);
      assert Candidate(block, minLen, i, j, whole);
    }
    if i: nat, j: nat, k: nat :| Candidate(block, minLen, i, j, k) {
      assert i < j && k >= minLen && Repeats(block, i, j, k);
    }
  }

  const WORD := Row("word", true)
  const BLANK := Row("", false)
  const UNIT: seq<Row> := [WORD, WORD, BLANK, BLANK, BLANK, BLANK]

  /** The meaningful rows among the first `n` of the unit twice over. */
  function Words(n: nat): nat {
    if n <= 2 then n else if n <= 6 then 2 else if n <= 8 then n - 4 else 4
  }

  lemma UnitRow(i: nat)
    requires i < 12
    ensures (UNIT + UNIT)[i] == if Words(i + 1) > Words(i) then WORD else BLANK
  {
  }

  lemma {:induction false} UnitWords(i: nat, k: nat)
    requires i + k <= 12
    ensures Meaningful((UNIT + UNIT)[i..i + k]) == Words(i + k) - Words(i)
    decreases k
  {
    if k > 0 {
      UnitRow(i);
      UnitWords(i + 1, k - 1);
      assert (UNIT + UNIT)[i..i + k][1..] == (UNIT + UNIT)[i + 1..i + 1 + (k - 1)];
    }
  }

  /** Which stretches of the block could count at all. */
  lemma TellingStretches(i: nat, k: nat)
    requires 4 <= k && i + 2 * k <= 12 && Words(i + k) - Words(i) >= Max((k + 1) / 2, 2)
    ensures k == 4 && (i == 0 || i == 4)
  {
  }

  lemma UnitNotCounted(i: nat, j: nat, k: nat)
    ensures !Candidate(UNIT + UNIT, 4, i, j, k)
  {
    if Candidate(UNIT + UNIT, 4, i, j, k) {
      UnitWords(i, k);
      TellingStretches(i, k);
      if i == 0 { StartGoesOn(j); } else { EndDiffers(j); }
    }
  }

  lemma EndDiffers(j: nat)
    ensures !Repeats(UNIT + UNIT, 4, j, 4)
  {
    UnitRow(6);
    UnitRow(10);
    if Repeats(UNIT + UNIT, 4, j, 4) { SameRow(UNIT + UNIT, 4, j, 4, 2); }
  }

  lemma SameRow(block: seq<Row>, i: nat, j: nat, k: nat, p: nat)
    requires Repeats(block, i, j, k) && p < k
    ensures block[i + p] == block[j + p]
  {
    assert block[i..i + k][p] == block[j..j + k][p];
  }

  /** Four rows from the start are repeated at the second unit alone, where they go on. */
  lemma StartGoesOn(j: nat)
    requires Repeats(UNIT + UNIT, 0, j, 4)
    ensures Repeats(UNIT + UNIT, 0, j, 5)
  {
    SameRow(UNIT + UNIT, 0, j, 4, 0);
    SameRow(UNIT + UNIT, 0, j, 4, 1);
    UnitRow(j);
    UnitRow(j + 1);
    assert j == 6;
    assert (UNIT + UNIT)[0..5] == [WORD, WORD, BLANK, BLANK, BLANK] == (UNIT + UNIT)[6..11];
  }

  /** The documented promise is wider than what is searched: four rows, half of them meaningful,
      are repeated here, but the stretch that agrees is six rows long and not telling, and
      nothing else counts. */
  lemma TellingPrefixMissed()
    ensures Promised(UNIT + UNIT, 4, 0, 6, 4)
    ensures forall i: nat, j: nat, k: nat :: !Candidate(UNIT + UNIT, 4, i, j, k)
  {
    var block := UNIT + UNIT;
    assert block[0..6] == UNIT == block[6..12];
    ShorterRepeats(block, 0, 6, 6, 4);
    UnitWords(0, 4);
    forall i: nat, j: nat, k: nat ensures !Candidate(block, 4, i, j, k) { UnitNotCounted(i, j, k); }
  }
}

/** What counting tokens one by one lets through, and when it lets nothing through:
    `preservesTokens` of scripts/rewrite-system-prompt.ts against its documentation. */
module PromptTokens {
  import opened Common
  import opened PromptText

  // ---------- Room for all tokens at once ----------

  predicate AllSolid(tokens: seq<string>) {
    forall i :: 0 <= i < |tokens| ==> tokens[i] != []
  }

  predicate Clear(a: string, p: nat, b: string, q: nat) {
    p + |a| <= q || q + |b| <= p
  }

  /** Every token of the list has a place of its own in the text. */
  ghost predicate PlacedAt(text: string, tokens: seq<string>, ps: seq<nat>) {
    && |ps| == |tokens|
    && (forall i :: 0 <= i < |tokens| ==> At(text, tokens[i], ps[i]))
    && (forall i, j :: 0 <= i < j < |tokens| ==> Clear(tokens[i], ps[i], tokens[j], ps[j]))
  }

  ghost predicate Placed(text: string, tokens: seq<string>) {
    exists ps :: PlacedAt(text, tokens, ps)
  }

  /** `b`, put on `a` from its character `d` on, agrees with `a` as far as both go. */
  predicate Laps(a: string, b: string, d: nat) {
    d < |a| && if d + |b| <= |a| then a[d..d + |b|] == b else a[d..] == b[..|a| - d]
  }

  /** One token holds the other, or begins with what the other ends in. */
  predicate Clash(a: string, b: string) {
    (exists d :: 0 <= d < |a| && Laps(a, b, d)) || (exists d :: 0 <= d < |b| && Laps(b, a, d))
  }

  predicate NoClash(tokens: seq<string>) {
    forall i, j :: 0 <= i < j < |tokens| && tokens[i] != tokens[j] ==> !Clash(tokens[i], tokens[j])
  }

  // ---------- Without clashes ----------

  /** Places that overlap make the tokens clash. */
  lemma OverlapClashes(text: string, a: string, p: nat, b: string, q: nat)
    requires At(text, a, p) && At(text, b, q) && p <= q < p + |a|
    ensures Clash(a, b)
  {
    var d := q - p;
    if d + |b| <= |a| {
      SliceOfSlice(text, p, p + |a|, d, d + |b|);
    } else {
      SliceOfSlice(text, p, p + |a|, d, |a|);
      SliceOfSlice(text, q, q + |b|, 0, |a| - d);
    }
    assert Laps(a, b, d);
  }

  lemma ClashSwaps(a: string, b: string)
    ensures Clash(a, b) <==> Clash(b, a)
  {
  }

  lemma NoClashClear(text: string, a: string, p: nat, b: string, q: nat)
    requires At(text, a, p) && At(text, b, q) && !Clash(a, b)
    ensures Clear(a, p, b, q)
  {
    if p <= q < p + |a| { OverlapClashes(text, a, p, b, q); }
    if q <= p < q + |b| { OverlapClashes(text, b, q, a, p); ClashSwaps(a, b); }
  }

  /** How often a token has come before in the list. */
  function Rank(tokens: seq<string>, i: nat): nat
    requires i < |tokens|
  {
    multiset(tokens[..i])[tokens[i]]
  }

  lemma RankBelow(tokens: seq<string>, i: nat)
    requires i < |tokens|
    ensures Rank(tokens, i) < multiset(tokens)[tokens[i]]
  {
    assert tokens == tokens[..i] + [tokens[i]] + tokens[i + 1..];
  }

  lemma RankRises(tokens: seq<string>, i: nat, j: nat)
    requires i < j < |tokens| && tokens[i] == tokens[j]
    ensures Rank(tokens, i) < Rank(tokens, j)
  {
    assert tokens[..j] == tokens[..i] + [tokens[i]] + tokens[i + 1..j];
  }

  lemma {:induction false} PlacesApart(text: string, token: string, ps: seq<nat>, i: nat, j: nat)
    requires Places(text, token, ps) && i < j < |ps|
    ensures ps[i] + |token| <= ps[j]
    decreases j
  {
    if i < j - 1 { PlacesApart(text, token, ps, i, j - 1); }
  }

  /** The place for the i-th token: of its own places, the one of its rank. */
  ghost function PlaceOf(text: string, tokens: seq<string>, i: nat): nat
    requires AllSolid(tokens) && Preserves(text, tokens) && i < |tokens|
  {
    RankBelow(tokens, i);
    CountIsReached(text, tokens[i]);
    Found(text, tokens[i])[Rank(tokens, i)]
  }

  lemma PlaceOfHolds(text: string, tokens: seq<string>, i: nat)
    requires AllSolid(tokens) && Preserves(text, tokens) && i < |tokens|
    ensures At(text, tokens[i], PlaceOf(text, tokens, i))
  {
    RankBelow(tokens, i);
    CountIsReached(text, tokens[i]);
  }

  lemma PlacesClear(text: string, tokens: seq<string>, i: nat, j: nat)
    requires AllSolid(tokens) && Preserves(text, tokens) && NoClash(tokens) && i < j < |tokens|
    ensures Clear(tokens[i], PlaceOf(text, tokens, i), tokens[j], PlaceOf(text, tokens, j))
  {
    PlaceOfHolds(text, tokens, i);
    PlaceOfHolds(text, tokens, j);
    if tokens[i] == tokens[j] {
      RankRises(tokens, i, j);
      RankBelow(tokens, j);
      CountIsReached(text, tokens[i]);
      PlacesApart(text, tokens[i], Found(text, tokens[i]), Rank(tokens, i), Rank(tokens, j));
    } else {
      NoClashClear(text, tokens[i], PlaceOf(text, tokens, i), tokens[j], PlaceOf(text, tokens, j));
    }
  }

  lemma NoClashPlaces(text: string, tokens: seq<string>)
    requires AllSolid(tokens) && Preserves(text, tokens) && NoClash(tokens)
    ensures Placed(text, tokens)
  {
    var ps := seq(|tokens|, i requires 0 <= i < |tokens| => PlaceOf(text, tokens, i));
    forall i | 0 <= i < |tokens| ensures At(text, tokens[i], ps[i]) { PlaceOfHolds(text, tokens, i); }
    forall i, j | 0 <= i < j < |tokens| ensures Clear(tokens[i], ps[i], tokens[j], ps[j]) {
      PlacesClear(text, tokens, i, j);
    }
    assert PlacedAt(text, tokens, ps);
  }

  // ---------- With a clash ----------

  function TotalLength(tokens: seq<string>): nat {
    if tokens == [] then 0 else TotalLength(tokens[..|tokens| - 1]) + |tokens[|tokens| - 1]|
  }

  predicate Within(n: nat, from: nat, upto: nat) {
    from <= n < upto
  }

  function Cells(from: nat, upto: nat): set<nat> {
    set n: nat | n < upto && Within(n, from, upto)
  }

  lemma {:induction false} CellsCard(from: nat, upto: nat)
    requires from <= upto
    ensures |Cells(from, upto)| == upto - from
    decreases upto
  {
    if upto > from {
      CellsCard(from, upto - 1);
      forall n: nat ensures n in Cells(from, upto) <==> n in Cells(from, upto - 1) + {upto - 1} {
        assert Within(n, from, upto) <==> Within(n, from, upto - 1) || n == upto - 1;
      }
      assert Cells(from, upto) == Cells(from, upto - 1) + {upto - 1};
    } else {
      forall n: nat ensures n !in Cells(from, upto) { assert !Within(n, from, upto); }
    }
  }

  function Taken(tokens: seq<string>, ps: seq<nat>): set<nat>
    requires |ps| == |tokens|
  {
    if tokens == [] then {}
    else
      var k := |tokens| - 1;
      Taken(tokens[..k], ps[..k]) + Cells(ps[k], ps[k] + |tokens[k]|)
  }

  lemma {:induction false} TakenFrom(tokens: seq<string>, ps: seq<nat>, n: nat)
    requires |ps| == |tokens| && n in Taken(tokens, ps)
    ensures exists i :: 0 <= i < |tokens| && Within(n, ps[i], ps[i] + |tokens[i]|)
    decreases tokens
  {
    var k := |tokens| - 1;
    if n in Taken(tokens[..k], ps[..k]) {
      TakenFrom(tokens[..k], ps[..k], n);
      var i :| 0 <= i < k && Within(n, ps[..k][i], ps[..k][i] + |tokens[..k][i]|);
      assert Within(n, ps[i], ps[i] + |tokens[i]|);
    } else {
      assert Within(n, ps[k], ps[k] + |tokens[k]|);
    }
  }

  lemma PlacedLess(text: string, tokens: seq<string>, ps: seq<nat>)
    requires PlacedAt(text, tokens, ps) && tokens != []
    ensures var k := |tokens| - 1; PlacedAt(text, tokens[..k], ps[..k])
  {
  }

  lemma LastIsFree(text: string, tokens: seq<string>, ps: seq<nat>)
    requires PlacedAt(text, tokens, ps) && tokens != []
    ensures var k := |tokens| - 1; Taken(tokens[..k], ps[..k]) !! Cells(ps[k], ps[k] + |tokens[k]|)
  {
    var k := |tokens| - 1;
    forall n <- Taken(tokens[..k], ps[..k]) ensures n !in Cells(ps[k], ps[k] + |tokens[k]|) {
      TakenFrom(tokens[..k], ps[..k], n);
      var i :| 0 <= i < k && Within(n, ps[..k][i], ps[..k][i] + |tokens[..k][i]|);
      assert Clear(tokens[i], ps[i], tokens[k], ps[k]);
      assert !Within(n, ps[k], ps[k] + |tokens[k]|);
    }
  }

  lemma {:induction false} TakenCard(text: string, tokens: seq<string>, ps: seq<nat>)
    requires PlacedAt(text, tokens, ps)
    ensures |Taken(tokens, ps)| == TotalLength(tokens)
    decreases tokens
  {
    if tokens != [] {
      var k := |tokens| - 1;
      PlacedLess(text, tokens, ps);
      TakenCard(text, tokens[..k], ps[..k]);
      CellsCard(ps[k], ps[k] + |tokens[k]|);
      LastIsFree(text, tokens, ps);
    }
  }

  /** A text that has room for all tokens is as long as they are together. */
  lemma {:induction false} PlacedIsLong(text: string, tokens: seq<string>)
    requires Placed(text, tokens)
    ensures TotalLength(tokens) <= |text|
  {
    var ps :| PlacedAt(text, tokens, ps);
    TakenCard(text, tokens, ps);
    CellsCard(0, |text|);
    forall n <- Taken(tokens, ps) ensures n in Cells(0, |text|) {
      TakenFrom(tokens, ps, n);
      assert Within(n, 0, |text|);
    }
    var rest := Cells(0, |text|) - Taken(tokens, ps);
    assert Cells(0, |text|) == Taken(tokens, ps) + rest;
  }

  /** A text put together from two has at least the places of both. */
  lemma {:induction false} CountCat(x: string, y: string, token: string)
    requires token != []
    ensures Count(x + y, token) >= Count(x, token) + Count(y, token)
  {
    var a, b := Found(x, token), Found(y, token);
    CountIsReached(x, token);
    CountIsReached(y, token);
    PlacesBoth(x, y, token, a, b);
    CountIsMost(x + y, token, a + ShiftAll(b, |x|));
  }

  lemma AtEarlier(x: string, y: string, token: string, p: nat)
    requires At(x, token, p)
    ensures At(x + y, token, p)
  {
    assert (x + y)[p..p + |token|] == x[p..p + |token|];
  }

  lemma PlacesBoth(x: string, y: string, token: string, a: seq<nat>, b: seq<nat>)
    requires Places(x, token, a) && Places(y, token, b)
    ensures Places(x + y, token, a + ShiftAll(b, |x|))
  {
    assert (x + y)[|x|..] == y;
    PlacesShift(x + y, token, |x|, b);
    forall i | 0 <= i < |a| ensures At(x + y, token, a[i]) { AtEarlier(x, y, token, a[i]); }
  }

  lemma {:induction false} CountOne(text: string, token: string, p: nat)
    requires token != [] && At(text, token, p)
    ensures Count(text, token) >= 1
  {
    CountIsMost(text, token, [p]);
  }

  function Concat(tokens: seq<string>): string {
    if tokens == [] then "" else Concat(tokens[..|tokens| - 1]) + tokens[|tokens| - 1]
  }

  lemma {:induction false} ConcatLength(tokens: seq<string>)
    ensures |Concat(tokens)| == TotalLength(tokens)
    decreases tokens
  {
    if tokens != [] { ConcatLength(tokens[..|tokens| - 1]); }
  }

  lemma {:induction false} ConcatCounts(tokens: seq<string>, t: string)
    requires t != []
    ensures Count(Concat(tokens), t) >= multiset(tokens)[t]
    decreases tokens
  {
    if tokens != [] {
      var k := |tokens| - 1;
      ConcatCounts(tokens[..k], t);
      CountCat(Concat(tokens[..k]), tokens[k], t);
      InitAndLast(tokens);
      if tokens[k] == t { CountOne(tokens[k], t, 0); }
    }
  }

  /** Two tokens on top of each other, in less than their length. */
  function Overlay(a: string, b: string, d: nat): string
    requires Laps(a, b, d)
  {
    if d + |b| <= |a| then a else a + b[|a| - d..]
  }

  lemma OverlayHasBoth(a: string, b: string, d: nat)
    requires Laps(a, b, d) && b != []
    ensures At(Overlay(a, b, d), a, 0) && At(Overlay(a, b, d), b, d) && |Overlay(a, b, d)| < |a| + |b|
  {
    var w := Overlay(a, b, d);
    if d + |b| > |a| {
      assert w[d..d + |b|] == a[d..] + b[|a| - d..];
      assert b == b[..|a| - d] + b[|a| - d..];
    }
  }

  /** The list without its i-th and j-th token. */
  function Without(tokens: seq<string>, i: nat, j: nat): seq<string>
    requires i < j < |tokens|
  {
    tokens[..i] + tokens[i + 1..j] + tokens[j + 1..]
  }

  lemma {:induction false} LengthCat(a: seq<string>, b: seq<string>)
    ensures TotalLength(a + b) == TotalLength(a) + TotalLength(b)
    decreases b
  {
    if b == [] {
      assert a + b == a;
    } else {
      assert (a + b)[..|a + b| - 1] == a + b[..|b| - 1];
      LengthCat(a, b[..|b| - 1]);
    }
  }

  lemma LengthOne(t: string)
    ensures TotalLength([t]) == |t|
  {
    assert [t][..0] == [];
  }

  lemma {:induction false} WithoutParts(tokens: seq<string>, i: nat, j: nat)
    requires i < j < |tokens|
    ensures multiset(tokens) == multiset(Without(tokens, i, j)) + multiset{tokens[i], tokens[j]}
    ensures TotalLength(tokens) == TotalLength(Without(tokens, i, j)) + |tokens[i]| + |tokens[j]|
  {
    var a, b, c := tokens[..i], tokens[i + 1..j], tokens[j + 1..];
    assert tokens == a + [tokens[i]] + b + [tokens[j]] + c;
    LengthOfParts(a, tokens[i], b, tokens[j], c);
  }

  lemma {:induction false} LengthOfParts(a: seq<string>, x: string, b: seq<string>, y: string, c: seq<string>)
    ensures TotalLength(a + [x] + b + [y] + c) == TotalLength(a + b + c) + |x| + |y|
  {
    LengthCat(a + [x] + b + [y], c);
    LengthCat(a + [x] + b, [y]);
    LengthCat(a + [x], b);
    LengthCat(a, [x]);
    LengthCat(a + b, c);
    LengthCat(a, b);
    LengthOne(x);
    LengthOne(y);
  }

  lemma CrowdedText(tokens: seq<string>, i: nat, j: nat, w: string) returns (text: string)
    requires AllSolid(tokens) && i < j < |tokens| && tokens[i] != tokens[j]
    requires Count(w, tokens[i]) >= 1 && Count(w, tokens[j]) >= 1 && |w| < |tokens[i]| + |tokens[j]|
    ensures Preserves(text, tokens) && !Placed(text, tokens)
  {
    var others := Without(tokens, i, j);
    text := w + Concat(others);
    WithoutParts(tokens, i, j);
    ConcatLength(others);
    forall k | 0 <= k < |tokens| ensures Count(text, tokens[k]) >= multiset(tokens)[tokens[k]] {
      CountCat(w, Concat(others), tokens[k]);
      ConcatCounts(others, tokens[k]);
    }
    if Placed(text, tokens) { PlacedIsLong(text, tokens); }
  }

  /** Two clashing tokens can be had in one place: some text passes and lacks room for them. */
  lemma ClashLetsThrough(tokens: seq<string>, i: nat, j: nat) returns (text: string)
    requires AllSolid(tokens) && i < j < |tokens| && tokens[i] != tokens[j] && Clash(tokens[i], tokens[j])
    ensures Preserves(text, tokens) && !Placed(text, tokens)
  {
    var a, b := tokens[i], tokens[j];
    if d :| 0 <= d < |a| && Laps(a, b, d) {
      var w := Overlay(a, b, d);
      OverlayHasBoth(a, b, d);
      CountOne(w, a, 0);
      CountOne(w, b, d);
      text := CrowdedText(tokens, i, j, w);
    } else {
      var d :| 0 <= d < |b| && Laps(b, a, d);
      var w := Overlay(b, a, d);
      OverlayHasBoth(b, a, d);
      CountOne(w, b, 0);
      CountOne(w, a, d);
      text := CrowdedText(tokens, i, j, w);
    }
  }

  // ---------- Exactly when ----------

  /** The documentation promises that a rewrite that drops a token is refused. Counting keeps
      that promise, so that every accepted text has a place for each token, if and only if no
      two different tokens of the line clash. */
  lemma AcceptedIsPlacedIff(tokens: seq<string>)
    requires AllSolid(tokens)
    ensures (forall text :: Preserves(text, tokens) ==> Placed(text, tokens)) <==> NoClash(tokens)
  {
    if NoClash(tokens) {
      forall text | Preserves(text, tokens) ensures Placed(text, tokens) { NoClashPlaces(text, tokens); }
    } else {
      var i, j :| 0 <= i < j < |tokens| && tokens[i] != tokens[j] && Clash(tokens[i], tokens[j]);
      var text := ClashLetsThrough(tokens, i, j);
    }
  }

  /** A tag and a code span that shows the tag: the code span alone is accepted for both. */
  lemma OnePlaceForTwoTokens()
    ensures var tag, code := "<a>", "`<a>`"; Preserves(code, [tag, code]) && !Placed(code, [tag, code])
  {
    var tag, code := "<a>", "`<a>`";
    assert code[1..4] == tag;
    assert tag != code by { assert |tag| != |code|; }
    CountOne(code, tag, 1);
    CountOne(code, code, 0);
    assert [tag] + [code] == [tag, code];
    LengthCat([tag], [code]);
    LengthOne(tag);
    LengthOne(code);
    if Placed(code, [tag, code]) { PlacedIsLong(code, [tag, code]); }
  }
}

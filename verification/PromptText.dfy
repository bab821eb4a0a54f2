/** Text handling of scripts/rewrite-system-prompt.ts: counting tokens in a rewrite, and
    splitting a file into lines and joining it again. */
module PromptText {
  import opened Common

  // ---------- Occurrences of a token ----------

  predicate At(text: string, token: string, p: nat) {
    p + |token| <= |text| && text[p..p + |token|] == token
  }

  /** What `text.split(token).length - 1` counts: matches from the left, none overlapping. */
  function Count(text: string, token: string): nat
    requires token != []
    decreases |text|
  {
    if |text| < |token| then 0
    else if At(text, token, 0) then 1 + Count(text[|token|..], token)
    else Count(text[1..], token)
  }

  /** Places in `text`, in order, where `token` stands without overlapping itself. */
  ghost predicate Places(text: string, token: string, ps: seq<nat>) {
    && (forall i :: 0 <= i < |ps| ==> At(text, token, ps[i]))
    && (forall i :: 0 < i < |ps| ==> ps[i - 1] + |token| <= ps[i])
  }

  function ShiftAll(ps: seq<nat>, d: nat): seq<nat> {
    seq(|ps|, i requires 0 <= i < |ps| => ps[i] + d)
  }

  lemma AtLater(text: string, token: string, d: nat, p: nat)
    requires d <= |text|
    ensures At(text[d..], token, p) <==> At(text, token, p + d)
  {
    if p + d + |token| <= |text| {
      assert text[d..][p..p + |token|] == text[p + d..p + d + |token|];
    }
  }

  /** The places that are counted, leftmost first. */
  function Found(text: string, token: string): seq<nat>
    requires token != []
    decreases |text|
  {
    if |text| < |token| then []
    else if At(text, token, 0) then [0] + ShiftAll(Found(text[|token|..], token), |token|)
    else ShiftAll(Found(text[1..], token), 1)
  }

  lemma PlacesShift(text: string, token: string, d: nat, rest: seq<nat>)
    requires d <= |text| && Places(text[d..], token, rest)
    ensures Places(text, token, ShiftAll(rest, d)) && StartFrom(ShiftAll(rest, d), d)
  {
    var later := ShiftAll(rest, d);
    forall i | 0 <= i < |later| ensures At(text, token, later[i]) { AtLater(text, token, d, rest[i]); }
  }

  lemma PlacesFirst(text: string, token: string, later: seq<nat>)
    requires At(text, token, 0) && Places(text, token, later) && StartFrom(later, |token|)
    ensures Places(text, token, [0] + later)
  {
  }

  /** The count is reached ... */
  lemma {:induction false} CountIsReached(text: string, token: string)
    requires token != []
    ensures Places(text, token, Found(text, token)) && |Found(text, token)| == Count(text, token)
    decreases |text|
  {
    if |text| >= |token| {
      var d := if At(text, token, 0) then |token| else 1;
      CountIsReached(text[d..], token);
      PlacesShift(text, token, d, Found(text[d..], token));
      if At(text, token, 0) { PlacesFirst(text, token, ShiftAll(Found(text[d..], token), d)); }
    }
  }

  ghost predicate StartFrom(ps: seq<nat>, d: nat) {
    forall i :: 0 <= i < |ps| ==> ps[i] >= d
  }

  lemma {:induction false} PlacesRise(text: string, token: string, ps: seq<nat>, i: nat)
    requires Places(text, token, ps) && i < |ps|
    ensures ps[0] <= ps[i] && (i > 0 ==> ps[0] + |token| <= ps[i])
    decreases i
  {
    if i > 0 { PlacesRise(text, token, ps, i - 1); }
  }

  lemma PlacesLater(text: string, token: string, ps: seq<nat>, d: nat) returns (qs: seq<nat>)
    requires Places(text, token, ps) && StartFrom(ps, d) && d <= |text|
    ensures Places(text[d..], token, qs) && |qs| == |ps|
  {
    qs := seq(|ps|, i requires 0 <= i < |ps| => if ps[i] >= d then ps[i] - d else 0);
    forall i | 0 <= i < |qs| ensures At(text[d..], token, qs[i]) { AtLater(text, token, d, qs[i]); }
  }

  /** ... and cannot be beaten. */
  lemma {:induction false} CountIsMost(text: string, token: string, ps: seq<nat>)
    requires token != [] && Places(text, token, ps)
    ensures |ps| <= Count(text, token)
    decreases |text|
  {
    if ps != [] {
      assert At(text, token, ps[0]);
      var d := if At(text, token, 0) then |token| else 1;
      var rest := if At(text, token, 0) then ps[1..] else ps;
      forall i | 0 <= i < |rest| ensures rest[i] >= d {
        PlacesRise(text, token, ps, if At(text, token, 0) then i + 1 else i);
      }
      var qs := PlacesLater(text, token, rest, d);
      CountIsMost(text[d..], token, qs);
    }
  }

  /** A rewrite carries every token at least as often as the original did. */
  ghost predicate Preserves(text: string, tokens: seq<string>)
    requires forall i :: 0 <= i < |tokens| ==> tokens[i] != []
  {
    forall i :: 0 <= i < |tokens| ==> Count(text, tokens[i]) >= multiset(tokens)[tokens[i]]
  }

  method PreservesTokens(rewritten: string, tokens: seq<string>) returns (ok: bool)
    requires forall i :: 0 <= i < |tokens| ==> tokens[i] != []
    ensures ok <==> Preserves(rewritten, tokens)
  {
    var want: map<string, nat> := map[];
    var i := 0;
    while i < |tokens|
      invariant 0 <= i <= |tokens|
      invariant forall t :: t in want <==> t in tokens[..i]
      invariant forall t <- want :: want[t] == multiset(tokens[..i])[t]
    {
      TakeMore(tokens, i);
      want := want[tokens[i] := (if tokens[i] in want then want[tokens[i]] else 0) + 1];
      i := i + 1;
    }
    TakeAll(tokens, i);
    var rest := want.Keys;
    while rest != {}
      invariant rest <= want.Keys
      invariant forall t <- want.Keys - rest :: t != [] && Count(rewritten, t) >= want[t]
      decreases rest
    {
      var t :| t in rest;
      assert t in tokens;
      if Count(rewritten, t) < want[t] {
        Lacks(rewritten, tokens, t);
        return false;
      }
      rest := rest - {t};
    }
    forall k | 0 <= k < |tokens| ensures Count(rewritten, tokens[k]) >= multiset(tokens)[tokens[k]] {
      assert tokens[k] in want.Keys - rest;
    }
    return true;
  }

  lemma {:induction false} Lacks(text: string, tokens: seq<string>, t: string)
    requires forall i :: 0 <= i < |tokens| ==> tokens[i] != []
    requires t in tokens && Count(text, t) < multiset(tokens)[t]
    ensures !Preserves(text, tokens)
  {
    var i :| 0 <= i < |tokens| && tokens[i] == t;
  }

  // ---------- Lines ----------

  function SplitLines(s: string): (r: seq<string>)
    ensures r != []
  {
    if s == [] then [""]
    else
      var k := |s| - 1;
      var init := SplitLines(s[..k]);
      if s[k] == '\n' then init + [""] else init[..|init| - 1] + [init[|init| - 1] + [s[k]]]
  }

  function Newlines(s: string): nat {
    if s == [] then 0 else Newlines(s[..|s| - 1]) + if s[|s| - 1] == '\n' then 1 else 0
  }

  function AllNewlines(lines: seq<string>): nat {
    if lines == [] then 0 else AllNewlines(lines[..|lines| - 1]) + Newlines(lines[|lines| - 1])
  }

  lemma {:induction false} SplitCount(s: string)
    ensures |SplitLines(s)| == 1 + Newlines(s)
    decreases s
  {
    if s != [] { SplitCount(s[..|s| - 1]); }
  }

  lemma {:induction false} NewlinesCat(a: string, b: string)
    ensures Newlines(a + b) == Newlines(a) + Newlines(b)
    decreases b
  {
    if b == [] {
      assert a + b == a;
    } else {
      var k := |b| - 1;
      assert (a + b)[..|a + b| - 1] == a + b[..k];
      NewlinesCat(a, b[..k]);
    }
  }

  lemma {:induction false} JoinCount(lines: seq<string>)
    requires lines != []
    ensures Newlines(JoinLines(lines)) == |lines| - 1 + AllNewlines(lines)
    decreases lines
  {
    var k := |lines| - 1;
    if k == 0 {
      assert lines[..0] == [];
    } else {
      JoinCount(lines[..k]);
      NewlinesCat(JoinLines(lines[..k]) + "\n", lines[k]);
      NewlinesCat(JoinLines(lines[..k]), "\n");
      assert Newlines("\n") == 1 by { assert "\n"[..0] == ""; }
    }
  }

  lemma {:induction false} NoNewlinesIff(lines: seq<string>)
    ensures AllNewlines(lines) == 0 <==> forall i :: 0 <= i < |lines| ==> Newlines(lines[i]) == 0
    decreases lines
  {
    if lines != [] {
      var k := |lines| - 1;
      NoNewlinesIff(lines[..k]);
      assert forall i :: 0 <= i < k ==> lines[..k][i] == lines[i];
    }
  }

  /** A file put together from lines has as many lines as went in if and only if none of them
      holds a newline. */
  lemma {:induction false} LineCountKeptIff(lines: seq<string>)
    requires lines != []
    ensures |SplitLines(JoinLines(lines))| == |lines|
       <==> forall i :: 0 <= i < |lines| ==> Newlines(lines[i]) == 0
  {
    SplitCount(JoinLines(lines));
    JoinCount(lines);
    NoNewlinesIff(lines);
  }

  lemma {:induction false} SplitLinesPlain(s: string)
    ensures forall i :: 0 <= i < |SplitLines(s)| ==> Newlines(SplitLines(s)[i]) == 0
    decreases s
  {
    if s != [] {
      var k := |s| - 1;
      SplitLinesPlain(s[..k]);
      var init := SplitLines(s[..k]);
      var last := init[|init| - 1];
      if s[k] != '\n' { MoreInit(last, s[k]); }
    }
  }

  lemma {:induction false} JoinLast(lines: seq<string>, c: char)
    requires lines != []
    ensures JoinLines(lines[..|lines| - 1] + [lines[|lines| - 1] + [c]]) == JoinLines(lines) + [c]
  {
    var k := |lines| - 1;
    var longer := lines[..k] + [lines[k] + [c]];
    assert longer[..k] == lines[..k];
    if k > 0 {
      assert JoinLines(lines[..k]) + "\n" + (lines[k] + [c]) == JoinLines(lines[..k]) + "\n" + lines[k] + [c];
    }
  }

  /** Splitting and joining again changes nothing. */
  lemma {:induction false} JoinSplit(s: string)
    ensures JoinLines(SplitLines(s)) == s
    decreases s
  {
    if s != [] {
      var k := |s| - 1;
      JoinSplit(s[..k]);
      var init := SplitLines(s[..k]);
      InitAndLast(s);
      if s[k] == '\n' {
        MoreInit(init, "");
        assert JoinLines(init) + "\n" + "" == JoinLines(init) + "\n";
      } else {
        JoinLast(init, s[k]);
      }
    }
  }
}

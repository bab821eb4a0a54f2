/** Which added changelog bullets are new: the diff reading and the pairing in
    `collectPromotableAddedItemLines` of scripts/fix-changelogs.ts. */
module ChangelogDiff {
  import opened Common

  /** One line of a diff. `heading` tells that an added line is a release heading; `bullet`
      that the text begins a list item. */
  datatype Line =
    | NewFile(path: string)
    | Git
    | HunkStart(newLine: nat)
    | Plus(text: string, bullet: bool, heading: bool)
    | Minus(text: string, bullet: bool)
    | Context
    | Other

  /** Two bullets are the same item if they are in one file and read alike. */
  datatype Key = Key(path: string, text: string)

  datatype Hunk = Hunk(path: string, index: int)

  datatype Added = Added(key: Key, line: nat, hunk: Hunk)

  datatype Removed = Removed(key: Key, hunk: Hunk)

  // ---------- Reading the diff ----------

  datatype Scan = Scan(path: string, index: int, newLine: nat, adds: seq<Added>, rems: seq<Removed>, headings: set<Hunk>)

  function ScanLine(s: Scan, l: Line, trim: string -> string): Scan {
    match l
    case NewFile(path) => s.(path := path)
    case Git => s.(path := "", index := -1)
    case HunkStart(n) => s.(newLine := n, index := s.index + 1)
    case _ => if s.path == "" || s.index < 0 then s else ScanBody(s, l, Hunk(s.path, s.index), trim)
  }

  function ScanBody(s: Scan, l: Line, hunk: Hunk, trim: string -> string): Scan {
    match l
    case Plus(text, bullet, heading) =>
      s.(headings := if heading then s.headings + {hunk} else s.headings,
         adds := if bullet then s.adds + [Added(Key(s.path, trim(text)), s.newLine, hunk)] else s.adds,
         newLine := s.newLine + 1)
    case Minus(text, bullet) =>
      s.(rems := if bullet then s.rems + [Removed(Key(s.path, trim(text)), hunk)] else s.rems)
    case Context => s.(newLine := s.newLine + 1)
    case _ => s
  }

  function ScanLines(ls: seq<Line>, trim: string -> string): Scan {
    if ls == [] then Scan("", -1, 0, [], [], {})
    else ScanLine(ScanLines(ls[..|ls| - 1], trim), ls[|ls| - 1], trim)
  }

  function Keys(adds: seq<Added>): seq<Key> {
    seq(|adds|, i requires 0 <= i < |adds| => adds[i].key)
  }

  function RemovedKeys(rems: seq<Removed>): seq<Key> {
    seq(|rems|, i requires 0 <= i < |rems| => rems[i].key)
  }

  // ---------- Counting ----------

  function Count(ks: seq<Key>, k: Key): nat {
    if ks == [] then 0 else Count(ks[..|ks| - 1], k) + if ks[|ks| - 1] == k then 1 else 0
  }

  lemma {:induction false} CountMore(ks: seq<Key>, i: nat, k: Key)
    requires i < |ks|
    ensures Count(ks[..i + 1], k) == Count(ks[..i], k) + if ks[i] == k then 1 else 0
  {
    TakeMore(ks, i);
  }

  /** If every occurrence has fewer than `c` before it, there are no more than `c`. */
  lemma {:induction false} CountBounded(ks: seq<Key>, k: Key, c: nat)
    requires forall m :: 0 <= m < |ks| && ks[m] == k ==> Count(ks[..m], k) < c
    ensures Count(ks, k) <= c
    decreases ks
  {
    if ks != [] {
      var n := |ks| - 1;
      forall m | 0 <= m < n && ks[..n][m] == k ensures Count(ks[..n][..m], k) < c {
        assert ks[..n][..m] == ks[..m];
      }
      CountBounded(ks[..n], k, c);
    }
  }

  lemma {:induction false} CountGrows(ks: seq<Key>, i: nat, j: nat, k: Key)
    requires i <= j <= |ks|
    ensures Count(ks[..i], k) <= Count(ks[..j], k)
    decreases j
  {
    if i < j {
      CountMore(ks, j - 1, k);
      CountGrows(ks, i, j - 1, k);
    }
  }

  // ---------- Pairing ----------

  /** The removals paired off after the first `i` additions: of each key, as many as there were
      additions, earliest first. */
  ghost predicate PairedOff(adds: seq<Key>, i: nat, rems: seq<Key>, pr: seq<bool>) {
    && i <= |adds| && |pr| == |rems|
    && forall j :: 0 <= j < |rems| ==> (pr[j] <==> Count(rems[..j], rems[j]) < Count(adds[..i], rems[j]))
  }

  method FirstUnpaired(rems: seq<Key>, pr: seq<bool>, k: Key) returns (j: nat)
    requires |pr| == |rems|
    ensures j <= |rems| && (j < |rems| ==> rems[j] == k && !pr[j])
    ensures forall m :: 0 <= m < j && rems[m] == k ==> pr[m]
  {
    j := 0;
    while j < |rems| && !(rems[j] == k && !pr[j])
      invariant 0 <= j <= |rems| && forall m :: 0 <= m < j && rems[m] == k ==> pr[m]
    {
      j := j + 1;
    }
  }

  /** The first unpaired removal of a key is the one whose turn it is. */
  lemma {:induction false} FirstIsNext(adds: seq<Key>, i: nat, rems: seq<Key>, pr: seq<bool>, k: Key, j: nat)
    requires PairedOff(adds, i, rems, pr) && j <= |rems| && (j < |rems| ==> rems[j] == k && !pr[j])
    requires forall m :: 0 <= m < j && rems[m] == k ==> pr[m]
    ensures j < |rems| ==> Count(rems[..j], k) == Count(adds[..i], k)
    ensures j < |rems| <==> Count(adds[..i], k) < Count(rems, k)
  {
    var c := Count(adds[..i], k);
    assert rems[..|rems|] == rems;
    forall m | 0 <= m < j && rems[..j][m] == k ensures Count(rems[..j][..m], k) < c {
      assert rems[..j][..m] == rems[..m];
    }
    CountBounded(rems[..j], k, c);
    if j < |rems| {
      CountMore(rems, j, k);
      CountGrows(rems, j + 1, |rems|, k);
    }
  }

  lemma PairStep(adds: seq<Key>, i: nat, rems: seq<Key>, pr: seq<bool>, j: nat)
    requires PairedOff(adds, i, rems, pr) && i < |adds| && j < |rems| && rems[j] == adds[i]
    requires Count(rems[..j], adds[i]) == Count(adds[..i], adds[i])
    ensures PairedOff(adds, i + 1, rems, pr[j := true])
  {
    forall m | 0 <= m < |rems|
      ensures pr[j := true][m] <==> Count(rems[..m], rems[m]) < Count(adds[..i + 1], rems[m])
    {
      CountMore(adds, i, rems[m]);
      if rems[m] == adds[i] && m != j { RanksDiffer(rems, m, j); }
    }
  }

  lemma RanksDiffer(ks: seq<Key>, m: nat, j: nat)
    requires m < |ks| && j < |ks| && m != j && ks[m] == ks[j]
    ensures Count(ks[..m], ks[m]) != Count(ks[..j], ks[m])
  {
    var a, b := if m < j then m else j, if m < j then j else m;
    CountMore(ks, a, ks[m]);
    CountGrows(ks, a + 1, b, ks[m]);
  }

  lemma {:induction false} NoPairStep(adds: seq<Key>, i: nat, rems: seq<Key>, pr: seq<bool>)
    requires PairedOff(adds, i, rems, pr) && i < |adds| && Count(adds[..i], adds[i]) >= Count(rems, adds[i])
    ensures PairedOff(adds, i + 1, rems, pr)
  {
    forall m | 0 <= m < |rems| ensures pr[m] <==> Count(rems[..m], rems[m]) < Count(adds[..i + 1], rems[m]) {
      CountMore(adds, i, rems[m]);
      if rems[m] == adds[i] {
        CountMore(rems, m, rems[m]);
        CountGrows(rems, m + 1, |rems|, rems[m]);
        assert rems[..|rems|] == rems;
      }
    }
  }

  /** Which of `ks` find a partner among `others`: of each item as many as there are of both, in
      order. */
  function Partners(ks: seq<Key>, others: seq<Key>): seq<bool> {
    seq(|ks|, i requires 0 <= i < |ks| => Count(ks[..i], ks[i]) < Count(others, ks[i]))
  }

  method PairOne(adds: seq<Key>, i: nat, rems: seq<Key>, pr0: seq<bool>) returns (paired: bool, pr: seq<bool>)
    requires PairedOff(adds, i, rems, pr0) && i < |adds|
    ensures PairedOff(adds, i + 1, rems, pr)
    ensures paired <==> Count(adds[..i], adds[i]) < Count(rems, adds[i])
  {
    var j := FirstUnpaired(rems, pr0, adds[i]);
    FirstIsNext(adds, i, rems, pr0, adds[i], j);
    pr, paired := pr0, j < |rems|;
    if paired {
      PairStep(adds, i, rems, pr, j);
      pr := pr[j := true];
    } else {
      NoPairStep(adds, i, rems, pr);
    }
  }

  /** The loop over the additions pairs them off. */
  method PairUp(adds: seq<Key>, rems: seq<Key>) returns (pa: seq<bool>, pr: seq<bool>)
    ensures pa == Partners(adds, rems) && pr == Partners(rems, adds)
  {
    pa, pr := [], seq(|rems|, j => false);
    var i := 0;
    while i < |adds|
      invariant 0 <= i <= |adds| && |pa| == i && PairedOff(adds, i, rems, pr)
      invariant forall k :: 0 <= k < i ==> pa[k] == Partners(adds, rems)[k]
    {
      var paired;
      paired, pr := PairOne(adds, i, rems, pr);
      pa := pa + [paired];
      i := i + 1;
    }
    TakeAll(adds, i);
  }

  // ---------- How many pairs ----------

  function Marked(ks: seq<Key>, marks: seq<bool>, k: Key): nat
    requires |marks| == |ks|
  {
    if ks == [] then 0
    else
      var n := |ks| - 1;
      Marked(ks[..n], marks[..n], k) + if ks[n] == k && marks[n] then 1 else 0
  }

  /** Marking the first `c` occurrences marks `c` of them, or all. */
  lemma {:induction false} MarkedFirst(ks: seq<Key>, marks: seq<bool>, k: Key, c: nat)
    requires |marks| == |ks|
    requires forall i :: 0 <= i < |ks| && ks[i] == k ==> (marks[i] <==> Count(ks[..i], k) < c)
    ensures Marked(ks, marks, k) == if Count(ks, k) <= c then Count(ks, k) else c
    decreases ks
  {
    if ks != [] {
      var n := |ks| - 1;
      forall i | 0 <= i < n && ks[..n][i] == k ensures marks[..n][i] <==> Count(ks[..n][..i], k) < c {
        assert ks[..n][..i] == ks[..i];
      }
      MarkedFirst(ks[..n], marks[..n], k, c);
    }
  }

  /** As many additions as removals of an item are paired: as many as there can be. */
  lemma {:induction false} PairsAreMost(adds: seq<Key>, rems: seq<Key>, k: Key)
    ensures Marked(adds, Partners(adds, rems), k) == Min(Count(adds, k), Count(rems, k))
    ensures Marked(rems, Partners(rems, adds), k) == Min(Count(adds, k), Count(rems, k))
  {
    MarkedFirst(adds, Partners(adds, rems), k, Count(rems, k));
    MarkedFirst(rems, Partners(rems, adds), k, Count(adds, k));
  }

  // ---------- What is promoted ----------

  /** Unpaired additions of a hunk among the first `i`. */
  function Fresh(adds: seq<Added>, pa: seq<bool>, i: nat, h: Hunk): nat
    requires |pa| == |adds| && i <= |adds|
  {
    if i == 0 then 0
    else Fresh(adds, pa, i - 1, h) + if adds[i - 1].hunk == h && !pa[i - 1] then 1 else 0
  }

  function Gone(rems: seq<Removed>, pr: seq<bool>, j: nat, h: Hunk): nat
    requires |pr| == |rems| && j <= |rems|
  {
    if j == 0 then 0
    else Gone(rems, pr, j - 1, h) + if rems[j - 1].hunk == h && !pr[j - 1] then 1 else 0
  }

  /** An unpaired addition counts as the rewrite of an unpaired removal of its hunk, while
      there are any; after that it is new. */
  predicate Promoted(adds: seq<Added>, pa: seq<bool>, rems: seq<Removed>, pr: seq<bool>, headings: set<Hunk>, i: nat)
    requires |pa| == |adds| && |pr| == |rems| && i < |adds|
  {
    var h := adds[i].hunk;
    !pa[i] && h !in headings && Fresh(adds, pa, i, h) >= Gone(rems, pr, |rems|, h)
  }

  function PromotedIn(adds: seq<Added>, pa: seq<bool>, rems: seq<Removed>, pr: seq<bool>, headings: set<Hunk>,
                      i: nat, h: Hunk): nat
    requires |pa| == |adds| && |pr| == |rems| && i <= |adds|
  {
    if i == 0 then 0
    else
      var own := if adds[i - 1].hunk == h && Promoted(adds, pa, rems, pr, headings, i - 1) then 1 else 0;
      PromotedIn(adds, pa, rems, pr, headings, i - 1, h) + own
  }

  function Excess(a: nat, b: nat): nat {
    if a >= b then a - b else 0
  }

  /** A hunk promotes what its unpaired additions exceed its unpaired removals by; one that adds
      a release heading promotes nothing. */
  lemma {:induction false} PromotedIsExcess(adds: seq<Added>, pa: seq<bool>, rems: seq<Removed>, pr: seq<bool>,
                                            headings: set<Hunk>, i: nat, h: Hunk)
    requires |pa| == |adds| && |pr| == |rems| && i <= |adds|
    ensures PromotedIn(adds, pa, rems, pr, headings, i, h)
         == if h in headings then 0 else Excess(Fresh(adds, pa, i, h), Gone(rems, pr, |rems|, h))
    decreases i
  {
    if i > 0 { PromotedIsExcess(adds, pa, rems, pr, headings, i - 1, h); }
  }

  function Lines(adds: seq<Added>, pa: seq<bool>, rems: seq<Removed>, pr: seq<bool>, headings: set<Hunk>, i: nat,
                 path: string): set<nat>
    requires |pa| == |adds| && |pr| == |rems| && i <= |adds|
  {
    if i == 0 then {}
    else
      var own := if adds[i - 1].key.path == path && Promoted(adds, pa, rems, pr, headings, i - 1)
                 then {adds[i - 1].line} else {};
      Lines(adds, pa, rems, pr, headings, i - 1, path) + own
  }

  method CountGone(rems: seq<Removed>, pr: seq<bool>) returns (gone: map<Hunk, nat>)
    requires |pr| == |rems|
    ensures forall h :: (if h in gone then gone[h] else 0) == Gone(rems, pr, |rems|, h)
  {
    gone := map[];
    var j := 0;
    while j < |rems|
      invariant 0 <= j <= |rems| && forall h :: (if h in gone then gone[h] else 0) == Gone(rems, pr, j, h)
    {
      var h := rems[j].hunk;
      if !pr[j] { gone := gone[h := (if h in gone then gone[h] else 0) + 1]; }
      j := j + 1;
    }
  }

  method Promote(adds: seq<Added>, pa: seq<bool>, ghost rems: seq<Removed>, ghost pr: seq<bool>, headings: set<Hunk>,
                 gone0: map<Hunk, nat>) returns (lines: map<string, set<nat>>)
    requires |pa| == |adds| && |pr| == |rems|
    requires forall h :: (if h in gone0 then gone0[h] else 0) == Gone(rems, pr, |rems|, h)
    ensures forall path :: (if path in lines then lines[path] else {}) == Lines(adds, pa, rems, pr, headings, |adds|, path)
  {
    lines := map[];
    var left := gone0;
    var i := 0;
    while i < |adds|
      invariant 0 <= i <= |adds|
      invariant forall h :: h !in headings ==>
                  (if h in left then left[h] else 0) == Excess(Gone(rems, pr, |rems|, h), Fresh(adds, pa, i, h))
      invariant forall path ::
                  (if path in lines then lines[path] else {}) == Lines(adds, pa, rems, pr, headings, i, path)
    {
      var a := adds[i];
      if !pa[i] && a.hunk !in headings {
        var count := if a.hunk in left then left[a.hunk] else 0;
        if count > 0 {
          left := left[a.hunk := count - 1];
        } else {
          var path := a.key.path;
          lines := lines[path := (if path in lines then lines[path] else {}) + {a.line}];
        }
      }
      i := i + 1;
    }
  }

  /** The line numbers that a diff promotes in one file. */
  function PromotedLines(s: Scan, path: string): set<nat> {
    Lines(s.adds, Partners(Keys(s.adds), RemovedKeys(s.rems)), s.rems, Partners(RemovedKeys(s.rems), Keys(s.adds)),
          s.headings, |s.adds|, path)
  }

  /** The bullets that count as new, by file. */
  method CollectPromotableAddedItemLines(ls: seq<Line>, trim: string -> string) returns (lines: map<string, set<nat>>)
    ensures forall path :: (if path in lines then lines[path] else {}) == PromotedLines(ScanLines(ls, trim), path)
  {
    var s := ReadDiff(ls, trim);
    var pa, pr := PairUp(Keys(s.adds), RemovedKeys(s.rems));
    var gone := CountGone(s.rems, pr);
    lines := Promote(s.adds, pa, s.rems, pr, s.headings, gone);
  }

  method ReadDiff(ls: seq<Line>, trim: string -> string) returns (s: Scan)
    ensures s == ScanLines(ls, trim)
  {
    s := Scan("", -1, 0, [], [], {});
    var i := 0;
    while i < |ls|
      invariant 0 <= i <= |ls| && s == ScanLines(ls[..i], trim)
    {
      TakeMore(ls, i);
      s := ScanLine(s, ls[i], trim);
      i := i + 1;
    }
    TakeAll(ls, i);
  }

  /** A diff that removes and adds the same bullets, in whatever order and hunks, promotes
      nothing. */
  lemma ReorderingPromotesNothing(s: Scan, path: string)
    requires forall k :: Count(Keys(s.adds), k) == Count(RemovedKeys(s.rems), k)
    ensures PromotedLines(s, path) == {}
  {
    var adds, rems := Keys(s.adds), RemovedKeys(s.rems);
    var pa := Partners(adds, rems);
    forall i | 0 <= i < |adds| ensures pa[i] {
      PairsAreMost(adds, rems, adds[i]);
      AllMarked(adds, pa, i);
    }
    NoneFresh(s.adds, pa, s.rems, Partners(rems, adds), s.headings, |s.adds|, path);
  }

  lemma {:induction false} NoneFresh(adds: seq<Added>, pa: seq<bool>, rems: seq<Removed>, pr: seq<bool>,
                                     headings: set<Hunk>, i: nat, path: string)
    requires |pa| == |adds| && |pr| == |rems| && i <= |adds| && forall k :: 0 <= k < |adds| ==> pa[k]
    ensures Lines(adds, pa, rems, pr, headings, i, path) == {}
    decreases i
  {
    if i > 0 { NoneFresh(adds, pa, rems, pr, headings, i - 1, path); }
  }

  lemma {:induction false} AllMarked(ks: seq<Key>, marks: seq<bool>, i: nat)
    requires |marks| == |ks| && i < |ks| && Marked(ks, marks, ks[i]) == Count(ks, ks[i])
    ensures marks[i]
    decreases ks
  {
    var n := |ks| - 1;
    NoMoreMarked(ks[..n], marks[..n], ks[i]);
    if i < n { AllMarked(ks[..n], marks[..n], i); }
  }

  lemma {:induction false} NoMoreMarked(ks: seq<Key>, marks: seq<bool>, k: Key)
    requires |marks| == |ks|
    ensures Marked(ks, marks, k) <= Count(ks, k)
    decreases ks
  {
    if ks != [] { NoMoreMarked(ks[..|ks| - 1], marks[..|ks| - 1], k); }
  }
}

/** What a diff says of its bullets: the path, the hunk and the line number that
    `collectPromotableAddedItemLines` of scripts/fix-changelogs.ts records. */
module ChangelogScan {
  import opened Common
  import opened ChangelogDiff

  // ---------- Where a line of the diff stands ----------

  /** The last file named before line `i`, unless another file's diff began since. */
  ghost predicate InFile(ls: seq<Line>, i: nat, f: nat) {
    f < i <= |ls| && ls[f].NewFile? && forall m :: f < m < i ==> !ls[m].NewFile? && !ls[m].Git?
  }

  /** Line `h` begins a hunk of the file's diff that line `i` is in. */
  predicate OfFile(ls: seq<Line>, i: nat, h: nat) {
    h < i <= |ls| && ls[h].HunkStart? && forall m :: h < m < i ==> !ls[m].Git?
  }

  /** Line `h` begins the last hunk before line `i`. */
  predicate LastHunk(ls: seq<Line>, i: nat, h: nat) {
    h < i <= |ls| && ls[h].HunkStart? && forall m :: h < m < i ==> !ls[m].HunkStart?
  }

  ghost predicate PathAt(ls: seq<Line>, i: nat, path: string) {
    if exists f: nat :: InFile(ls, i, f) then exists f: nat :: InFile(ls, i, f) && ls[f].path == path else path == ""
  }

  ghost function Hunks(ls: seq<Line>, i: nat): set<nat> {
    set h: nat | h < i && OfFile(ls, i, h)
  }

  /** Hunks are numbered from 0 on; -1 stands for none. */
  ghost predicate IndexAt(ls: seq<Line>, i: nat, index: int) {
    index + 1 == |Hunks(ls, i)|
  }

  /** A line of a hunk's body. */
  ghost predicate Inside(ls: seq<Line>, i: nat) {
    (exists f: nat :: InFile(ls, i, f) && ls[f].path != "") && exists h: nat :: OfFile(ls, i, h)
  }

  /** A line that the new file has. */
  ghost predicate InNew(ls: seq<Line>, i: nat) {
    i < |ls| && (ls[i].Plus? || ls[i].Context?) && Inside(ls, i)
  }

  ghost function NewSince(ls: seq<Line>, from: int, i: nat): set<nat> {
    set m: nat | from < m < i && InNew(ls, m)
  }

  /** The number of line `i` in the new file: that of its hunk's first line, and one more for each
      line since that the new file has. */
  ghost predicate NumberAt(ls: seq<Line>, i: nat, n: nat) {
    && (forall h: nat :: LastHunk(ls, i, h) ==> n == ls[h].newLine + |NewSince(ls, h, i)|)
    && ((forall h: nat :: !LastHunk(ls, i, h)) ==> n == |NewSince(ls, -1, i)|)
  }

  // ---------- The state of the scan ----------

  ghost predicate StateAt(ls: seq<Line>, i: nat, s: Scan) {
    PathAt(ls, i, s.path) && IndexAt(ls, i, s.index) && NumberAt(ls, i, s.newLine)
  }

  lemma FileStep(ls: seq<Line>, i: nat, next: nat, f: nat)
    requires i < |ls| && next == i + 1
    ensures InFile(ls, next, f)
       <==> if ls[i].NewFile? then f == i else !ls[i].Git? && InFile(ls, i, f)
  {
  }

  lemma PathStep(ls: seq<Line>, i: nat, next: nat, path: string)
    requires i < |ls| && next == i + 1 && PathAt(ls, i, path)
    ensures PathAt(ls, next, match ls[i] { case NewFile(p) => p case Git => "" case _ => path })
  {
    forall f: nat
      ensures InFile(ls, next, f) <==> if ls[i].NewFile? then f == i else !ls[i].Git? && InFile(ls, i, f)
    { FileStep(ls, i, next, f); }
    if ls[i].NewFile? { assert InFile(ls, next, i); }
  }

  lemma IndexStep(ls: seq<Line>, i: nat, next: nat, index: int)
    requires i < |ls| && next == i + 1 && IndexAt(ls, i, index)
    ensures IndexAt(ls, next, match ls[i] { case Git => -1 case HunkStart(_) => index + 1 case _ => index })
  {
    var before, after := Hunks(ls, i), Hunks(ls, next);
    match ls[i]
    case Git => assert after == {};
    case HunkStart(_) => assert after == before + {i};
    case _ => assert after == before;
  }

  lemma NewStep(ls: seq<Line>, from: int, i: nat, next: nat)
    requires i < |ls| && next == i + 1 && from < i
    ensures |NewSince(ls, from, next)| == |NewSince(ls, from, i)| + if InNew(ls, i) then 1 else 0
  {
    if InNew(ls, i) {
      assert NewSince(ls, from, next) == NewSince(ls, from, i) + {i};
    } else {
      assert NewSince(ls, from, next) == NewSince(ls, from, i);
    }
  }

  lemma HunkStep(ls: seq<Line>, i: nat, next: nat, h: nat)
    requires i < |ls| && next == i + 1
    ensures LastHunk(ls, next, h) <==> if ls[i].HunkStart? then h == i else LastHunk(ls, i, h)
  {
  }

  lemma NumberStep(ls: seq<Line>, i: nat, next: nat, n: nat)
    requires i < |ls| && next == i + 1 && NumberAt(ls, i, n)
    ensures NumberAt(ls, next, if ls[i].HunkStart? then ls[i].newLine else if InNew(ls, i) then n + 1 else n)
  {
    forall h: nat ensures LastHunk(ls, next, h) <==> if ls[i].HunkStart? then h == i else LastHunk(ls, i, h) {
      HunkStep(ls, i, next, h);
    }
    if ls[i].HunkStart? {
      assert NewSince(ls, i, next) == {};
    } else {
      forall h: nat | LastHunk(ls, i, h)
        ensures |NewSince(ls, h, next)| == |NewSince(ls, h, i)| + if InNew(ls, i) then 1 else 0
      { NewStep(ls, h, i, next); }
      NewStep(ls, -1, i, next);
    }
  }

  lemma OneFile(ls: seq<Line>, i: nat, f: nat, g: nat)
    requires InFile(ls, i, f) && InFile(ls, i, g)
    ensures f == g
  {
  }

  lemma InsideIs(ls: seq<Line>, i: nat, path: string, index: int)
    requires i <= |ls| && PathAt(ls, i, path) && IndexAt(ls, i, index)
    ensures Inside(ls, i) <==> path != "" && index >= 0
  {
    if f: nat :| InFile(ls, i, f) {
      var g: nat :| InFile(ls, i, g) && ls[g].path == path;
      forall f: nat | InFile(ls, i, f) ensures f == g { OneFile(ls, i, f, g); }
    }
    var hunks := Hunks(ls, i);
    if h: nat :| OfFile(ls, i, h) { assert h in hunks; }
    if index >= 0 {
      assert |hunks| > 0;
      var h :| h in hunks;
    }
  }

  /** What one line does to the scan; `inside` tells whether the scan is in a hunk of a file. */
  lemma ScanLineIs(s: Scan, l: Line, trim: string -> string, inside: bool)
    requires inside <==> s.path != "" && s.index >= 0
    ensures var t, key, hunk := ScanLine(s, l, trim), Key(s.path, trim(if l.Plus? || l.Minus? then l.text else "")),
                                Hunk(s.path, s.index);
            && t.path == (match l { case NewFile(p) => p case Git => "" case _ => s.path })
            && t.index == (match l { case Git => -1 case HunkStart(_) => s.index + 1 case _ => s.index })
            && t.newLine == (if l.HunkStart? then l.newLine
                             else if (l.Plus? || l.Context?) && inside then s.newLine + 1 else s.newLine)
            && t.adds == (if l.Plus? && l.bullet && inside then s.adds + [Added(key, s.newLine, hunk)] else s.adds)
            && t.rems == (if l.Minus? && l.bullet && inside then s.rems + [Removed(key, hunk)] else s.rems)
            && t.headings == (if l.Plus? && l.heading && inside then s.headings + {hunk} else s.headings)
  {
  }

  lemma StateStep(ls: seq<Line>, i: nat, next: nat, s: Scan, trim: string -> string)
    requires i < |ls| && next == i + 1 && StateAt(ls, i, s)
    ensures StateAt(ls, next, ScanLine(s, ls[i], trim))
  {
    var t := ScanLine(s, ls[i], trim);
    InsideIs(ls, i, s.path, s.index);
    ScanLineIs(s, ls[i], trim, Inside(ls, i));
    assert PathAt(ls, next, t.path) by { PathStep(ls, i, next, s.path); }
    assert IndexAt(ls, next, t.index) by { IndexStep(ls, i, next, s.index); }
    NumberStep(ls, i, next, s.newLine);
  }

  // ---------- What is recorded ----------

  ghost predicate AddedAt(ls: seq<Line>, i: nat) {
    i < |ls| && ls[i].Plus? && ls[i].bullet && Inside(ls, i)
  }

  ghost predicate RemovedAt(ls: seq<Line>, i: nat) {
    i < |ls| && ls[i].Minus? && ls[i].bullet && Inside(ls, i)
  }

  /** An added bullet with its file, its hunk and its number in the new file. */
  ghost predicate AddIs(ls: seq<Line>, i: nat, a: Added, trim: string -> string) {
    && AddedAt(ls, i) && PathAt(ls, i, a.key.path) && a.key.text == trim(ls[i].text)
    && a.hunk.path == a.key.path && IndexAt(ls, i, a.hunk.index) && NumberAt(ls, i, a.line)
  }

  ghost predicate RemovalIs(ls: seq<Line>, i: nat, r: Removed, trim: string -> string) {
    && RemovedAt(ls, i) && PathAt(ls, i, r.key.path) && r.key.text == trim(ls[i].text)
    && r.hunk.path == r.key.path && IndexAt(ls, i, r.hunk.index)
  }

  predicate Rising(at: seq<nat>) {
    forall a, b :: 0 <= a < b < |at| ==> at[a] < at[b]
  }

  /** `at` are the places of the added bullets before line `i`, in order. */
  ghost predicate AddsAt(ls: seq<Line>, i: nat, adds: seq<Added>, at: seq<nat>, trim: string -> string) {
    && |at| == |adds| && Rising(at) && (forall k: nat :: k in at <==> k < i && AddedAt(ls, k))
    && forall a :: 0 <= a < |at| ==> AddIs(ls, at[a], adds[a], trim)
  }

  ghost predicate RemovalsAt(ls: seq<Line>, i: nat, rems: seq<Removed>, at: seq<nat>, trim: string -> string) {
    && |at| == |rems| && Rising(at) && (forall k: nat :: k in at <==> k < i && RemovedAt(ls, k))
    && forall a :: 0 <= a < |at| ==> RemovalIs(ls, at[a], rems[a], trim)
  }

  ghost predicate HeadingAt(ls: seq<Line>, i: nat, h: Hunk) {
    i < |ls| && ls[i].Plus? && ls[i].heading && Inside(ls, i) && PathAt(ls, i, h.path) && IndexAt(ls, i, h.index)
  }

  /** The hunks with an added release heading before line `i`. */
  ghost predicate HeadingsAt(ls: seq<Line>, i: nat, headings: set<Hunk>) {
    forall h :: h in headings <==> exists k: nat :: k < i && HeadingAt(ls, k, h)
  }

  lemma PlaceMore(at: seq<nat>, i: nat)
    requires Rising(at) && forall k: nat :: k in at ==> k < i
    ensures Rising(at + [i]) && forall k: nat :: k in at + [i] <==> k in at || k == i
  {
    forall a | 0 <= a < |at| ensures at[a] < i { assert at[a] in at; }
  }

  lemma OneIndex(ls: seq<Line>, i: nat, path: string, p: string, m: int, n: int)
    requires Inside(ls, i) && PathAt(ls, i, path) && PathAt(ls, i, p) && IndexAt(ls, i, m) && IndexAt(ls, i, n)
    ensures path == p && m == n
  {
    var f: nat :| InFile(ls, i, f) && ls[f].path == path;
    var g: nat :| InFile(ls, i, g) && ls[g].path == p;
    OneFile(ls, i, f, g);
  }

  lemma HeadingHere(ls: seq<Line>, i: nat, next: nat, headings: set<Hunk>, here: Hunk)
    requires next == i + 1 && HeadingsAt(ls, i, headings) && HeadingAt(ls, i, here)
    ensures HeadingsAt(ls, next, headings + {here})
  {
    forall h | HeadingAt(ls, i, h) ensures h == here { OneIndex(ls, i, h.path, here.path, h.index, here.index); }
  }

  lemma NoHeadingHere(ls: seq<Line>, i: nat, next: nat, headings: set<Hunk>)
    requires next == i + 1 && HeadingsAt(ls, i, headings) && forall h :: !HeadingAt(ls, i, h)
    ensures HeadingsAt(ls, next, headings)
  {
  }

  lemma HeadingsStep(ls: seq<Line>, i: nat, next: nat, s: Scan, trim: string -> string)
    requires i < |ls| && next == i + 1 && StateAt(ls, i, s) && HeadingsAt(ls, i, s.headings)
    ensures HeadingsAt(ls, next, ScanLine(s, ls[i], trim).headings)
  {
    InsideIs(ls, i, s.path, s.index);
    ScanLineIs(s, ls[i], trim, Inside(ls, i));
    if ls[i].Plus? && ls[i].heading && Inside(ls, i) {
      assert HeadingAt(ls, i, Hunk(s.path, s.index));
      HeadingHere(ls, i, next, s.headings, Hunk(s.path, s.index));
    } else {
      NoHeadingHere(ls, i, next, s.headings);
    }
  }

  lemma AddHere(ls: seq<Line>, i: nat, next: nat, adds: seq<Added>, at: seq<nat>, trim: string -> string, a: Added)
    requires next == i + 1 && AddsAt(ls, i, adds, at, trim) && AddIs(ls, i, a, trim)
    ensures AddsAt(ls, next, adds + [a], at + [i], trim)
  {
    PlaceMore(at, i);
    forall k | 0 <= k <= |at| ensures AddIs(ls, (at + [i])[k], (adds + [a])[k], trim) { }
  }

  lemma NoAddHere(ls: seq<Line>, i: nat, next: nat, adds: seq<Added>, at: seq<nat>, trim: string -> string)
    requires next == i + 1 && AddsAt(ls, i, adds, at, trim) && !AddedAt(ls, i)
    ensures AddsAt(ls, next, adds, at, trim)
  {
  }

  lemma AddsStep(ls: seq<Line>, i: nat, next: nat, s: Scan, trim: string -> string, at: seq<nat>)
    requires i < |ls| && next == i + 1 && StateAt(ls, i, s) && AddsAt(ls, i, s.adds, at, trim)
    ensures AddsAt(ls, next, ScanLine(s, ls[i], trim).adds, if AddedAt(ls, i) then at + [i] else at, trim)
  {
    InsideIs(ls, i, s.path, s.index);
    ScanLineIs(s, ls[i], trim, Inside(ls, i));
    if AddedAt(ls, i) {
      var a := Added(Key(s.path, trim(ls[i].text)), s.newLine, Hunk(s.path, s.index));
      assert AddIs(ls, i, a, trim);
      AddHere(ls, i, next, s.adds, at, trim, a);
    } else {
      NoAddHere(ls, i, next, s.adds, at, trim);
    }
  }

  lemma RemovalHere(ls: seq<Line>, i: nat, next: nat, rems: seq<Removed>, at: seq<nat>, trim: string -> string,
                    r: Removed)
    requires next == i + 1 && RemovalsAt(ls, i, rems, at, trim) && RemovalIs(ls, i, r, trim)
    ensures RemovalsAt(ls, next, rems + [r], at + [i], trim)
  {
    PlaceMore(at, i);
    forall k | 0 <= k <= |at| ensures RemovalIs(ls, (at + [i])[k], (rems + [r])[k], trim) { }
  }

  lemma NoRemovalHere(ls: seq<Line>, i: nat, next: nat, rems: seq<Removed>, at: seq<nat>, trim: string -> string)
    requires next == i + 1 && RemovalsAt(ls, i, rems, at, trim) && !RemovedAt(ls, i)
    ensures RemovalsAt(ls, next, rems, at, trim)
  {
  }

  lemma RemovalsStep(ls: seq<Line>, i: nat, next: nat, s: Scan, trim: string -> string, at: seq<nat>)
    requires i < |ls| && next == i + 1 && StateAt(ls, i, s) && RemovalsAt(ls, i, s.rems, at, trim)
    ensures RemovalsAt(ls, next, ScanLine(s, ls[i], trim).rems, if RemovedAt(ls, i) then at + [i] else at, trim)
  {
    InsideIs(ls, i, s.path, s.index);
    ScanLineIs(s, ls[i], trim, Inside(ls, i));
    if RemovedAt(ls, i) {
      var r := Removed(Key(s.path, trim(ls[i].text)), Hunk(s.path, s.index));
      assert RemovalIs(ls, i, r, trim);
      RemovalHere(ls, i, next, s.rems, at, trim, r);
    } else {
      NoRemovalHere(ls, i, next, s.rems, at, trim);
    }
  }

  lemma NothingScanned(ls: seq<Line>)
    ensures StateAt(ls, 0, Scan("", -1, 0, [], [], {}))
  {
    assert NewSince(ls, -1, 0) == {} && Hunks(ls, 0) == {};
  }

  lemma {:induction false} ScanOneMore(ls: seq<Line>, k: nat, i: nat, trim: string -> string)
    requires k < |ls| && i == k + 1
    ensures ScanLines(ls[..i], trim) == ScanLine(ScanLines(ls[..k], trim), ls[k], trim)
  {
    assert ls[..i][..k] == ls[..k];
  }

  lemma NothingRecorded(ls: seq<Line>, trim: string -> string)
    ensures AddsAt(ls, 0, [], [], trim) && RemovalsAt(ls, 0, [], [], trim) && HeadingsAt(ls, 0, {})
  {
  }

  /** The scan of the first `i` lines. */
  lemma {:induction false} ScannedTo(ls: seq<Line>, i: nat, trim: string -> string)
    returns (adds: seq<nat>, rems: seq<nat>)
    requires i <= |ls|
    ensures var s := ScanLines(ls[..i], trim);
            && StateAt(ls, i, s) && AddsAt(ls, i, s.adds, adds, trim) && RemovalsAt(ls, i, s.rems, rems, trim)
            && HeadingsAt(ls, i, s.headings)
    decreases i
  {
    adds, rems := [], [];
    if i == 0 {
      NothingScanned(ls);
      NothingRecorded(ls, trim);
      assert ls[..0] == [];
    } else {
      var k := i - 1;
      adds, rems := ScannedTo(ls, k, trim);
      var s := ScanLines(ls[..k], trim);
      ScanOneMore(ls, k, i, trim);
      StateStep(ls, k, i, s, trim);
      AddsStep(ls, k, i, s, trim, adds);
      RemovalsStep(ls, k, i, s, trim, rems);
      HeadingsStep(ls, k, i, s, trim);
      if AddedAt(ls, k) { adds := adds + [k]; }
      if RemovedAt(ls, k) { rems := rems + [k]; }
    }
  }

  /** Of every diff the scan records exactly the added and the removed bullets inside a hunk of a
      named file, in order, each with its file and hunk, an added one with its number in the new
      file, and the hunks with an added release heading. */
  lemma {:induction false} ScanIs(ls: seq<Line>, trim: string -> string) returns (adds: seq<nat>, rems: seq<nat>)
    ensures var s := ScanLines(ls, trim);
            && AddsAt(ls, |ls|, s.adds, adds, trim) && RemovalsAt(ls, |ls|, s.rems, rems, trim)
            && HeadingsAt(ls, |ls|, s.headings)
  {
    TakeAll(ls, |ls|);
    adds, rems := ScannedTo(ls, |ls|, trim);
  }
}

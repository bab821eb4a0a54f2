/** Applying replacement edits to a file's bytes: `apply_edits` of crates/pi-ast/src/ops.rs. */
module Edits {
  import opened Common
  import opened StableSort

  newtype byte = x: int | 0 <= x < 0x100
  type Text = seq<byte>

  /** The largest `usize`: offsets saturate there. */
  const MAX: nat := 0xFFFF_FFFF_FFFF_FFFF
  type usize = x: nat | x <= MAX witness 0

  datatype Edit = Edit(position: usize, deleted: usize, inserted: Text)

  function End(e: Edit): usize {
    if e.position + e.deleted <= MAX then e.position + e.deleted else MAX
  }

  predicate Overlap(a: Edit, b: Edit) {
    a.position < End(b) && b.position < End(a)
  }

  /** `Panics` when an edit begins or ends inside a character. */
  datatype Outcome = Done(text: Text) | Overlapping | OutOfBounds | NotText | Panics

  // ---------- The order in which edits are applied ----------

  predicate TextLe(a: Text, b: Text) {
    a == [] || (b != [] && (a[0] < b[0] || (a[0] == b[0] && TextLe(a[1..], b[1..]))))
  }

  predicate Le(a: Edit, b: Edit) {
    a.position < b.position || (a.position == b.position
    && (a.deleted < b.deleted || (a.deleted == b.deleted && TextLe(a.inserted, b.inserted))))
  }

  lemma {:induction false} TextLeTotal(a: Text, b: Text)
    ensures TextLe(a, b) || TextLe(b, a)
    ensures TextLe(a, b) && TextLe(b, a) ==> a == b
    decreases |a|
  {
    if a != [] && b != [] {
      TextLeTotal(a[1..], b[1..]);
      assert a == [a[0]] + a[1..] && b == [b[0]] + b[1..];
    }
  }

  lemma {:induction false} TextLeTransitive(a: Text, b: Text, c: Text)
    requires TextLe(a, b) && TextLe(b, c)
    ensures TextLe(a, c)
    decreases |a|
  {
    if a != [] && a[0] == b[0] == c[0] { TextLeTransitive(a[1..], b[1..], c[1..]); }
  }

  lemma LeTotal(a: Edit, b: Edit)
    ensures Le(a, b) || Le(b, a)
    ensures Le(a, b) && Le(b, a) ==> a == b
  {
    TextLeTotal(a.inserted, b.inserted);
  }

  lemma LeTransitive(a: Edit, b: Edit, c: Edit)
    requires Le(a, b) && Le(b, c)
    ensures Le(a, c)
  {
    if a.position == b.position == c.position && a.deleted == b.deleted == c.deleted {
      TextLeTransitive(a.inserted, b.inserted, c.inserted);
    }
  }

  predicate Sorted(s: seq<Edit>) {
    forall i, j :: 0 <= i < j < |s| ==> Le(s[i], s[j])
  }

  predicate Strict(s: seq<Edit>) {
    Sorted(s) && forall i, j :: 0 <= i < j < |s| ==> s[i] != s[j]
  }

  ghost predicate SameEdits(s: seq<Edit>, t: seq<Edit>) {
    forall e :: e in s <==> e in t
  }

  function Dedup(s: seq<Edit>): (r: seq<Edit>)
    ensures SameEdits(r, s) && (s != [] ==> r != [] && r[0] == s[0])
  {
    if |s| < 2 then s
    else
      HeadAndTail(s);
      if s[0] == s[1] then Dedup(s[1..]) else [s[0]] + Dedup(s[1..])
  }

  lemma {:induction false} SortSorted(s: seq<Edit>)
    ensures Sorted(Sort(s, Le)) && SameEdits(Sort(s, Le), s)
  {
    forall a, b ensures Le(a, b) || Le(b, a) { LeTotal(a, b); }
    forall a, b, c | Le(a, b) && Le(b, c) ensures Le(a, c) { LeTransitive(a, b, c); }
    SortInOrder(s, Le);
  }

  lemma HeadBelow(s: seq<Edit>, x: Edit)
    requires Sorted(s) && |s| >= 2 && s[0] != s[1] && x in s[1..]
    ensures Le(s[0], x) && x != s[0]
  {
    var i :| 0 <= i < |s[1..]| && s[1..][i] == x;
    assert Le(s[0], s[i + 1]) && Le(s[0], s[1]);
    if i > 0 { assert Le(s[1], s[i + 1]); }
    LeTotal(s[0], s[1]);
  }

  lemma Prepend(e: Edit, r: seq<Edit>)
    requires Strict(r) && forall x <- r :: Le(e, x) && x != e
    ensures Strict([e] + r)
  {
  }

  lemma {:induction false} DedupStrict(s: seq<Edit>)
    requires Sorted(s)
    ensures Strict(Dedup(s))
    decreases s
  {
    if |s| >= 2 {
      DedupStrict(s[1..]);
      if s[0] != s[1] {
        forall x <- Dedup(s[1..]) ensures Le(s[0], x) && x != s[0] { HeadBelow(s, x); }
        Prepend(s[0], Dedup(s[1..]));
      }
    }
  }

  function Canonical(edits: seq<Edit>): (r: seq<Edit>)
    ensures SameEdits(r, edits)
  {
    SortSorted(edits);
    Dedup(Sort(edits, Le))
  }

  lemma CanonicalStrict(edits: seq<Edit>)
    ensures Strict(Canonical(edits))
  {
    SortSorted(edits);
    DedupStrict(Sort(edits, Le));
  }

  lemma StrictTail(s: seq<Edit>, e: Edit)
    requires Strict(s) && s != []
    ensures Strict(s[1..]) && (e in s[1..] <==> e in s && e != s[0])
  {
    HeadAndTail(s);
  }

  lemma SameEmpty(s: seq<Edit>, t: seq<Edit>)
    requires SameEdits(s, t)
    ensures s == [] <==> t == []
  {
    if s != [] { assert s[0] in t; }
    if t != [] { assert t[0] in s; }
  }

  lemma {:induction false} StrictUnique(s: seq<Edit>, t: seq<Edit>)
    requires Strict(s) && Strict(t) && SameEdits(s, t)
    ensures s == t
    decreases s
  {
    SameEmpty(s, t);
    if s != [] {
      assert s[0] in t && t[0] in s;
      LeTotal(s[0], t[0]);
      assert s[0] == t[0];
      forall e ensures e in s[1..] <==> e in t[1..] {
        StrictTail(s, e);
        StrictTail(t, e);
      }
      StrictUnique(s[1..], t[1..]);
      assert s == [s[0]] + s[1..] && t == [t[0]] + t[1..];
    }
  }

  /** Neither the order of the edits nor how often one is repeated matters. */
  lemma OrderDoesNotMatter(edits: seq<Edit>, others: seq<Edit>)
    requires SameEdits(edits, others)
    ensures Canonical(edits) == Canonical(others)
  {
    CanonicalStrict(edits);
    CanonicalStrict(others);
    StrictUnique(Canonical(edits), Canonical(others));
  }

  /** Up to byte `k` the texts agree; there the first ends, or has the smaller byte. */
  predicate PartAt(a: Text, b: Text, k: nat) {
    k <= |a| && k <= |b| && a[..k] == b[..k] && (k == |a| || (k < |b| && a[k] < b[k]))
  }

  /** Edits of one place go by length, and insertions of one place in alphabetical order. */
  ghost predicate Precedes(a: Edit, b: Edit) {
    if a.position != b.position then a.position < b.position
    else if a.deleted != b.deleted then a.deleted < b.deleted
    else a.inserted != b.inserted && exists k: nat :: PartAt(a.inserted, b.inserted, k)
  }

  lemma {:induction false} TextLeParts(a: Text, b: Text)
    requires TextLe(a, b)
    ensures exists k: nat :: PartAt(a, b, k)
    decreases a
  {
    if a == [] || a[0] < b[0] {
      assert PartAt(a, b, 0);
    } else {
      TextLeParts(a[1..], b[1..]);
      var k: nat :| PartAt(a[1..], b[1..], k);
      assert a[..k + 1] == [a[0]] + a[1..][..k] && b[..k + 1] == [b[0]] + b[1..][..k];
      assert PartAt(a, b, k + 1);
    }
  }

  /** The distinct edits, each before all that it precedes. */
  lemma CanonicalInOrder(edits: seq<Edit>)
    ensures forall i, j :: 0 <= i < j < |Canonical(edits)| ==> Precedes(Canonical(edits)[i], Canonical(edits)[j])
  {
    var es := Canonical(edits);
    CanonicalStrict(edits);
    forall i, j | 0 <= i < j < |es| ensures Precedes(es[i], es[j]) {
      assert Le(es[i], es[j]) && es[i] != es[j];
      if es[i].position == es[j].position && es[i].deleted == es[j].deleted {
        TextLeParts(es[i].inserted, es[j].inserted);
      }
    }
  }

  // ---------- What the edits mean together ----------

  /** From offset `at` on, the edits come one after the other and end within the content. */
  predicate Room(content: Text, es: seq<Edit>, at: nat) {
    if es == [] then at <= |content|
    else at <= es[0].position && Room(content, es[1..], End(es[0]))
  }

  lemma {:induction false} RoomEnds(content: Text, es: seq<Edit>, at: nat)
    requires Room(content, es, at)
    ensures at <= |content| && forall e <- es :: at <= e.position && End(e) <= |content|
    decreases es
  {
    if es != [] {
      RoomEnds(content, es[1..], End(es[0]));
      HeadAndTail(es);
    }
  }

  /** One left-to-right pass: copy up to the edit, write its text, skip what it deletes. */
  function Splice(content: Text, es: seq<Edit>, at: nat): Text
    requires Room(content, es, at)
  {
    RoomEnds(content, es, at);
    if es == [] then content[at..]
    else content[at..es[0].position] + es[0].inserted + Splice(content, es[1..], End(es[0]))
  }

  lemma {:induction false} SpliceLater(content: Text, es: seq<Edit>, at: nat, b: nat)
    requires Room(content, es, b) && at <= b
    ensures b <= |content| && Room(content, es, at)
    ensures Splice(content, es, at) == content[at..b] + Splice(content, es, b)
  {
    RoomEnds(content, es, b);
    if es == [] {
      assert content[at..] == content[at..b] + content[b..];
    } else {
      var p := es[0].position;
      RoomEnds(content, es[1..], End(es[0]));
      assert content[at..p] == content[at..b] + content[b..p];
      Regroup(content[at..b], content[b..p], es[0].inserted, Splice(content, es[1..], End(es[0])));
    }
  }

  lemma Regroup(a: Text, b: Text, c: Text, d: Text)
    ensures a + b + c + d == a + (b + c + d)
  {
  }

  /** How far edits move what follows them. */
  function Shift(es: seq<Edit>): int {
    if es == [] then 0 else |es[0].inserted| - (End(es[0]) - es[0].position) + Shift(es[1..])
  }

  lemma {:induction false} LengthLaw(content: Text, es: seq<Edit>, at: nat)
    requires Room(content, es, at)
    ensures |Splice(content, es, at)| == |content| - at + Shift(es)
    decreases es
  {
    RoomEnds(content, es, at);
    if es != [] { LengthLaw(content, es[1..], End(es[0])); }
  }

  lemma {:induction false} HeadLength(content: Text, es: seq<Edit>, at: nat)
    requires Room(content, es, at) && es != []
    ensures es[0].position <= End(es[0])
    ensures var head := es[0].position - at + |es[0].inserted|;
            head <= |Splice(content, es, at)|
            && Splice(content, es, at)[head..] == Splice(content, es[1..], End(es[0]))
  {
    RoomEnds(content, es, at);
  }

  predicate Lands(whole: Text, q: int, text: Text) {
    0 <= q && q + |text| <= |whole| && whole[q..q + |text|] == text
  }

  lemma FoundInTail(whole: Text, head: nat, tail: Text, q: int, text: Text)
    requires head <= |whole| && whole[head..] == tail && Lands(tail, q, text)
    ensures Lands(whole, head + q, text)
  {
    assert whole[head..][q..q + |text|] == whole[head + q..head + q + |text|];
  }

  lemma {:induction false} InsertedFirst(content: Text, es: seq<Edit>, at: nat)
    requires Room(content, es, at) && es != []
    ensures Lands(Splice(content, es, at), es[0].position - at, es[0].inserted)
  {
    RoomEnds(content, es, at);
  }

  /** The text of every edit is in the result, at the edit's position moved by the edits before. */
  lemma {:induction false} InsertedTextLands(content: Text, es: seq<Edit>, at: nat, i: nat)
    requires Room(content, es, at) && i < |es|
    ensures Lands(Splice(content, es, at), es[i].position - at + Shift(es[..i]), es[i].inserted)
    decreases es
  {
    if i == 0 {
      assert es[..0] == [];
      InsertedFirst(content, es, at);
    } else {
      var end := End(es[0]);
      InsertedTextLands(content, es[1..], end, i - 1);
      HeadLength(content, es, at);
      ShiftStep(es, i);
      var head, later := es[0].position - at + |es[0].inserted|, Shift(es[1..][..i - 1]);
      FoundInTail(Splice(content, es, at), head, Splice(content, es[1..], end),
                  es[i].position - end + later, es[i].inserted);
      assert head + (es[i].position - end + later) == es[i].position - at + Shift(es[..i]);
    }
  }

  lemma ShiftStep(es: seq<Edit>, i: nat)
    requires 0 < i <= |es|
    ensures Shift(es[..i]) == |es[0].inserted| - (End(es[0]) - es[0].position) + Shift(es[1..][..i - 1])
  {
    assert es[..i][1..] == es[1..][..i - 1];
  }

  lemma {:induction false} KeptBeforeFirst(content: Text, es: seq<Edit>, at: nat, p: nat)
    requires Room(content, es, at) && at <= p < |content| && (es != [] ==> p < es[0].position)
    ensures Lands(Splice(content, es, at), p - at, [content[p]])
  {
    if es == [] {
      assert Splice(content, es, at) == content[at..];
    } else {
      RoomEnds(content, es, at);
      var front := content[at..es[0].position];
      assert front[p - at..p - at + 1] == [content[p]];
      assert front <= Splice(content, es, at);
    }
  }

  /** A byte that no edit deletes is still there, moved by the edits that end before it. */
  lemma {:induction false} KeptBytesStay(content: Text, es: seq<Edit>, at: nat, i: nat, p: nat)
    requires Room(content, es, at)
    requires i <= |es| && at <= p < |content|
    requires (i > 0 ==> End(es[i - 1]) <= p) && (i < |es| ==> p < es[i].position)
    ensures Lands(Splice(content, es, at), p - at + Shift(es[..i]), [content[p]])
    decreases es
  {
    if i == 0 {
      KeptBeforeFirst(content, es, at, p);
      assert es[..0] == [];
    } else {
      KeptBehindFirst(content, es, at, i, p);
      KeptBytesStay(content, es[1..], End(es[0]), i - 1, p);
      KeptInTail(content, es, at, i, p);
    }
  }

  lemma {:induction false} KeptBehindFirst(content: Text, es: seq<Edit>, at: nat, i: nat, p: nat)
    requires Room(content, es, at) && 0 < i <= |es| && End(es[i - 1]) <= p
    ensures End(es[0]) <= p
  {
    RoomEnds(content, es[1..], End(es[0]));
    if i > 1 { assert es[1..][i - 2] == es[i - 1]; }
  }

  lemma {:induction false} KeptInTail(content: Text, es: seq<Edit>, at: nat, i: nat, p: nat)
    requires Room(content, es, at) && 0 < i <= |es| && End(es[0]) <= p < |content|
    requires Lands(Splice(content, es[1..], End(es[0])), p - End(es[0]) + Shift(es[1..][..i - 1]), [content[p]])
    ensures Lands(Splice(content, es, at), p - at + Shift(es[..i]), [content[p]])
  {
    HeadLength(content, es, at);
    FoundInTail(Splice(content, es, at), es[0].position - at + |es[0].inserted|,
                Splice(content, es[1..], End(es[0])), p - End(es[0]) + Shift(es[1..][..i - 1]), [content[p]]);
    ShiftStep(es, i);
  }

  // ---------- The in-place algorithm ----------

  ghost predicate Conflict(edits: seq<Edit>) {
    exists a, b :: a in edits && b in edits && a != b && Overlap(a, b)
  }

  ghost predicate Outside(content: Text, edits: seq<Edit>) {
    exists e :: e in edits && End(e) > |content|
  }

  /** The check on neighbours misses no overlap, and never fires without one. */
  lemma NeighboursConflict(es: seq<Edit>, i: nat)
    requires Strict(es) && 0 < i < |es| && es[i].position < End(es[i - 1])
    ensures Conflict(es)
  {
    var a, b := es[i - 1], es[i];
    assert Le(a, b) && a != b;
    assert Overlap(a, b);
  }

  /** Each edit starts where the one before has ended, or later. */
  predicate Apart(es: seq<Edit>) {
    forall i :: 0 < i < |es| ==> End(es[i - 1]) <= es[i].position
  }

  lemma {:induction false} PairsApart(es: seq<Edit>, i: nat, j: nat)
    requires Apart(es) && i < j < |es|
    ensures End(es[i]) <= es[j].position
    decreases j
  {
    if i < j - 1 { PairsApart(es, i, j - 1); }
  }

  lemma ApartMeansNoConflict(es: seq<Edit>)
    requires Apart(es)
    ensures !Conflict(es)
  {
    forall a, b | a in es && b in es && a != b ensures !Overlap(a, b) {
      var i :| 0 <= i < |es| && es[i] == a;
      var j :| 0 <= j < |es| && es[j] == b;
      if i < j { PairsApart(es, i, j); } else { PairsApart(es, j, i); }
    }
  }

  method CheckNeighbours(es: seq<Edit>) returns (ok: bool)
    requires Strict(es)
    ensures ok <==> !Conflict(es)
    ensures ok ==> Apart(es)
  {
    var prevEnd := 0;
    var i := 0;
    while i < |es|
      invariant 0 <= i <= |es| && prevEnd == if i == 0 then 0 else End(es[i - 1])
      invariant forall j :: 0 < j < i ==> End(es[j - 1]) <= es[j].position
    {
      if es[i].position < prevEnd {
        NeighboursConflict(es, i);
        return false;
      }
      prevEnd := End(es[i]);
      i := i + 1;
    }
    ApartMeansNoConflict(es);
    return true;
  }

  /** Applying one more edit from the back. */
  lemma {:induction false} ReplaceOne(content: Text, es: seq<Edit>, output: Text)
    requires es != [] && Room(content, es, 0) && Room(content, es[1..], 0)
    requires output == Splice(content, es[1..], 0)
    ensures es[0].position <= End(es[0]) <= |output|
    ensures output[..es[0].position] + es[0].inserted + output[End(es[0])..] == Splice(content, es, 0)
  {
    var e := es[0];
    RoomEnds(content, es, 0);
    SpliceLater(content, es[1..], 0, End(e));
    assert content[0..End(e)][..e.position] == content[0..e.position];
  }

  /** Only the edit that ends last can be out of bounds. */
  lemma {:induction false} RoomOneMore(content: Text, es: seq<Edit>, i: nat)
    requires Apart(es) && i < |es| && Room(content, es[i + 1..], 0)
    requires i + 1 == |es| ==> End(es[i]) <= |content|
    ensures Room(content, es[i..], 0) && es[i..][0] == es[i] && es[i..][1..] == es[i + 1..]
  {
    assert es[i..][1..] == es[i + 1..];
  }

  lemma {:induction false} InsideUnlessOutside(content: Text, es: seq<Edit>)
    requires Room(content, es, 0)
    ensures !Outside(content, es)
  {
    RoomEnds(content, es, 0);
  }

  lemma LastOutside(content: Text, es: seq<Edit>)
    requires es != [] && End(es[|es| - 1]) > |content|
    ensures Outside(content, es)
  {
    assert es[|es| - 1] in es;
  }

  // ---------- Characters ----------

  /** A byte that goes on with a character of UTF-8. */
  predicate Continues(b: byte) {
    0x80 <= b < 0xC0
  }

  predicate Boundary(t: Text, i: nat) {
    i <= |t| && (i == 0 || i == |t| || !Continues(t[i]))
  }

  /** What is used of the check for UTF-8: text does not begin in the middle of a character. */
  ghost predicate BeginsWhole(isText: Text -> bool) {
    forall t :: isText(t) ==> Boundary(t, 0) && (t != [] ==> !Continues(t[0]))
  }

  /** An edit that cannot be applied although it is in bounds. */
  predicate Bad(content: Text, e: Edit, isText: Text -> bool) {
    !isText(e.inserted) || !Boundary(content, e.position) || !Boundary(content, End(e))
  }

  /** The last edit of the list that cannot be applied. */
  predicate LastBad(content: Text, es: seq<Edit>, i: nat, isText: Text -> bool) {
    i < |es| && Bad(content, es[i], isText) && forall j :: i < j < |es| ==> !Bad(content, es[j], isText)
  }

  /** The error is that edit's: its text if that is not valid, else its place. */
  ghost predicate Refused(content: Text, es: seq<Edit>, isText: Text -> bool, r: Outcome) {
    exists i: nat :: LastBad(content, es, i, isText) && (r.NotText? <==> !isText(es[i].inserted))
  }

  /** Where the edits from the i-th on begin. */
  function Front(content: Text, es: seq<Edit>, i: nat): nat
    requires i <= |es|
  {
    if i < |es| then es[i].position else |content|
  }

  /** Before that place nothing has changed, and a character begins there. */
  predicate UnchangedTo(content: Text, output: Text, p: nat) {
    p <= |content| && p <= |output| && output[..p] == content[..p] && Boundary(output, p) && Boundary(content, p)
  }

  lemma SameBoundary(content: Text, output: Text, p: nat, q: nat)
    requires UnchangedTo(content, output, p) && q <= p
    ensures Boundary(output, q) <==> Boundary(content, q)
  {
    if q < p { assert output[q] == output[..p][q] && content[q] == content[..p][q]; }
  }

  lemma StillUnchanged(content: Text, output: Text, p: nat, e: Edit, isText: Text -> bool)
    requires UnchangedTo(content, output, p) && e.position <= End(e) <= p
    requires BeginsWhole(isText) && !Bad(content, e, isText)
    ensures UnchangedTo(content, output[..e.position] + e.inserted + output[End(e)..], e.position)
  {
    var next := output[..e.position] + e.inserted + output[End(e)..];
    SameBoundary(content, output, p, End(e));
    assert next[..e.position] == output[..p][..e.position] == content[..e.position];
    if e.inserted != [] {
      assert next[e.position] == e.inserted[0];
    } else if End(e) < |output| {
      assert next[e.position] == output[End(e)];
    }
  }

  /** The edits are put in order, checked, and applied from the back so that offsets stay
      right; the outcome is the simultaneous splice of the distinct edits. `isText` says which
      texts are valid UTF-8. */
  method ApplyEdits(content: Text, edits: seq<Edit>, isText: Text -> bool) returns (r: Outcome)
    requires BeginsWhole(isText)
    ensures r.Overlapping? <==> Conflict(edits)
    ensures r.OutOfBounds? <==> !Conflict(edits) && Outside(content, edits)
    ensures r.Done? <==> !Conflict(edits) && !Outside(content, edits) && forall e <- edits :: !Bad(content, e, isText)
    ensures r.Done? ==> Room(content, Canonical(edits), 0) && r.text == Splice(content, Canonical(edits), 0)
    ensures forall i, j :: 0 <= i < j < |Canonical(edits)| ==> Precedes(Canonical(edits)[i], Canonical(edits)[j])
    ensures r.NotText? || r.Panics? ==> Refused(content, Canonical(edits), isText, r)
  {
    var es := Canonical(edits);
    CanonicalStrict(edits);
    CanonicalInOrder(edits);
    assert Conflict(edits) == Conflict(es) && Outside(content, edits) == Outside(content, es);
    var apart := CheckNeighbours(es);
    if !apart { return Overlapping; }
    r := ApplyBackwards(content, es, isText);
  }

  method ApplyBackwards(content: Text, es: seq<Edit>, isText: Text -> bool) returns (r: Outcome)
    requires Apart(es) && BeginsWhole(isText)
    ensures !r.Overlapping? && (r.OutOfBounds? <==> Outside(content, es))
    ensures r.Done? <==> !Outside(content, es) && forall e <- es :: !Bad(content, e, isText)
    ensures r.Done? ==> Room(content, es, 0) && r == Done(Splice(content, es, 0))
    ensures r.NotText? || r.Panics? ==> Refused(content, es, isText, r)
  {
    var output := content;
    var i := |es|;
    while i > 0
      invariant 0 <= i <= |es| && Room(content, es[i..], 0) && output == Splice(content, es[i..], 0)
      invariant FineFrom(content, es, i, output, isText)
    {
      var e := es[i - 1];
      if i < |es| { EndsInFront(content, es, i); }
      if End(e) > |output| || e.position > End(e) {
        LastOutside(content, es);
        return OutOfBounds;
      }
      RoomOneMore(content, es, i - 1);
      ReplaceOne(content, es[i - 1..], output);
      OneMoreFine(content, es, i, output, isText);
      if !isText(e.inserted) { return NotText; }
      if !Boundary(output, e.position) || !Boundary(output, End(e)) { return Panics; }
      output := output[..e.position] + e.inserted + output[End(e)..];
      i := i - 1;
    }
    assert es[0..] == es;
    InsideUnlessOutside(content, es);
    return Done(output);
  }

  /** The edits from the i-th on have been applied and were fine. */
  predicate FineFrom(content: Text, es: seq<Edit>, i: nat, output: Text, isText: Text -> bool)
    requires i <= |es|
  {
    && UnchangedTo(content, output, Front(content, es, i))
    && (forall j :: i <= j < |es| ==> !Bad(content, es[j], isText))
    && (i < |es| ==> End(es[|es| - 1]) <= |content|)
  }

  /** The next edit is looked at in what there is by now, which is as good as in the content. */
  lemma OneMoreFine(content: Text, es: seq<Edit>, i: nat, output: Text, isText: Text -> bool)
    requires Apart(es) && BeginsWhole(isText) && 0 < i <= |es| && FineFrom(content, es, i, output, isText)
    requires i == |es| ==> End(es[i - 1]) <= |content|
    ensures var e := es[i - 1];
            && (Bad(content, e, isText)
                <==> !isText(e.inserted) || !Boundary(output, e.position) || !Boundary(output, End(e)))
            && e.position <= End(e) <= |output|
            && if Bad(content, e, isText)
               then !Outside(content, es) && e in es && LastBad(content, es, i - 1, isText)
               else FineFrom(content, es, i - 1, output[..e.position] + e.inserted + output[End(e)..], isText)
  {
    var e, p := es[i - 1], Front(content, es, i);
    EndsInFront(content, es, i);
    SameBoundary(content, output, p, e.position);
    SameBoundary(content, output, p, End(e));
    if Bad(content, e, isText) { NotOutside(content, es); } else { StillUnchanged(content, output, p, e, isText); }
  }

  lemma EndsInFront(content: Text, es: seq<Edit>, i: nat)
    requires Apart(es) && 0 < i <= |es| && (i == |es| ==> End(es[i - 1]) <= |content|)
    ensures es[i - 1].position <= End(es[i - 1]) <= Front(content, es, i)
  {
  }

  lemma NotOutside(content: Text, es: seq<Edit>)
    requires Apart(es) && es != [] && End(es[|es| - 1]) <= |content|
    ensures !Outside(content, es)
  {
    forall e <- es ensures End(e) <= |content| {
      var i :| 0 <= i < |es| && es[i] == e;
      if i < |es| - 1 { PairsApart(es, i, |es| - 1); }
    }
  }
}

/** The order in which a changelog's releases and the categories of Unreleased are written:
    `sortReleaseSections` and `titleOrder` of scripts/fix-changelogs.ts. */
module ChangelogOrder {
  import opened Common
  import opened ChangelogItems
  import opened ChangelogText
  import opened ChangelogFix
  import opened StableSort

  // ---------- Versions ----------

  /** `a` is the later version, or as late: part by part, a missing part counting as 0. */
  predicate NotOlder(a: seq<int>, b: seq<int>)
    decreases |a| + |b|
  {
    if a == [] && b == [] then true
    else
      var x, y := if a == [] then 0 else a[0], if b == [] then 0 else b[0];
      x > y || (x == y && NotOlder(if a == [] then [] else a[1..], if b == [] then [] else b[1..]))
  }

  function Rest(a: seq<int>): seq<int> {
    if a == [] then [] else a[1..]
  }

  lemma {:induction false} NotOlderTotal(a: seq<int>, b: seq<int>)
    ensures NotOlder(a, b) || NotOlder(b, a)
    decreases |a| + |b|
  {
    if a != [] || b != [] { NotOlderTotal(Rest(a), Rest(b)); }
  }

  lemma {:induction false} NotOlderTransitive(a: seq<int>, b: seq<int>, c: seq<int>)
    requires NotOlder(a, b) && NotOlder(b, c)
    ensures NotOlder(a, c)
    decreases |a| + |b| + |c|
  {
    if a != [] || b != [] || c != [] {
      var x, y, z := if a == [] then 0 else a[0], if b == [] then 0 else b[0], if c == [] then 0 else c[0];
      if x == y == z { NotOlderTransitive(Rest(a), Rest(b), Rest(c)); }
    }
  }

  function Parts(s: Section): seq<int> {
    if s.heading.Release? && s.heading.title.Version? then s.heading.title.parts else []
  }

  function ByVersion(): (Section, Section) -> bool {
    (a: Section, b: Section) => NotOlder(Parts(a), Parts(b))
  }

  // ---------- Categories ----------

  function TitleOrder(title: string): nat {
    if title == "Breaking Changes" then 0
    else if title == "Added" then 1
    else if title == "Changed" then 2
    else if title == "Fixed" then 3
    else if title == "Removed" then 4
    else 5
  }

  function ByTitle(): (Sub, Sub) -> bool {
    (a: Sub, b: Sub) => TitleOrder(a.title) <= TitleOrder(b.title)
  }

  lemma Orderings()
    ensures Ordering(ByTitle()) && Ordering(ByVersion())
  {
    forall a, b ensures ByVersion()(a, b) || ByVersion()(b, a) { NotOlderTotal(Parts(a), Parts(b)); }
    forall a, b, c | ByVersion()(a, b) && ByVersion()(b, c) ensures ByVersion()(a, c) {
      NotOlderTransitive(Parts(a), Parts(b), Parts(c));
    }
  }

  // ---------- Sorting sections ----------

  function Those(ss: seq<Section>, which: Section -> bool): seq<Section> {
    if ss == [] then [] else (if which(ss[0]) then [ss[0]] else []) + Those(ss[1..], which)
  }

  /** Unreleased first, then versions, latest first. */
  function SortSections(ss: seq<Section>): seq<Section> {
    Those(ss, IsUnreleased) + Sort(Those(ss, IsReleased), ByVersion())
  }

  lemma {:induction false} ThoseMember(ss: seq<Section>, which: Section -> bool)
    ensures forall s :: s in Those(ss, which) <==> s in ss && which(s)
    decreases ss
  {
    if ss != [] {
      ThoseMember(ss[1..], which);
      HeadAndTail(ss);
    }
  }

  lemma SortedMember(ss: seq<Section>)
    ensures forall s :: s in SortSections(ss) <==> s in ss
  {
    ThoseMember(ss, IsUnreleased);
    ThoseMember(ss, IsReleased);
    Orderings();
    var released := Those(ss, IsReleased);
    SortSorts(released, ByVersion());
    forall s ensures s in Sort(released, ByVersion()) <==> s in released {
      assert s in released <==> s in multiset(released);
    }
  }

  lemma {:induction false} ThoseSplit(ss: seq<Section>)
    ensures multiset(Those(ss, IsUnreleased) + Those(ss, IsReleased)) == multiset(ss)
    decreases ss
  {
    if ss != [] {
      ThoseSplit(ss[1..]);
      HeadAndTail(ss);
    }
  }

  lemma SortedSame(ss: seq<Section>)
    ensures multiset(SortSections(ss)) == multiset(ss)
  {
    Orderings();
    SortSorts(Those(ss, IsReleased), ByVersion());
    ThoseSplit(ss);
  }

  // ---------- What the order is ----------

  /** Part `k` of a release's version; a missing part counts as 0. */
  function Part(s: Section, k: nat): int {
    if s.heading.Release? && s.heading.title.Version? && k < |s.heading.title.parts|
    then s.heading.title.parts[k]
    else 0
  }

  ghost predicate NewerAt(a: Section, b: Section, k: nat) {
    Part(a, k) > Part(b, k) && forall j: nat :: j < k ==> Part(a, j) == Part(b, j)
  }

  ghost predicate SameVersion(a: Section, b: Section) {
    forall k: nat :: Part(a, k) == Part(b, k)
  }

  /** Every Unreleased section before every release, and no release before a newer one. */
  ghost predicate LatestFirst(ss: seq<Section>) {
    forall i, j :: 0 <= i < j < |ss| ==> InPlace(ss[i], ss[j])
  }

  ghost predicate InPlace(a: Section, b: Section) {
    if b.heading.Release? && b.heading.title == Unreleased then a.heading.Release? && a.heading.title == Unreleased
    else (a.heading.Release? && a.heading.title == Unreleased) || forall k: nat :: !NewerAt(b, a, k)
  }

  ghost predicate Ties(a: Section, b: Section) {
    (IsUnreleased(a) && IsUnreleased(b)) || (IsReleased(a) && IsReleased(b) && SameVersion(a, b))
  }

  /** `at[i]` is the place in `ss` of what stands at `i` in `out`; sections that tie stay in order. */
  ghost predicate Rearranged(at: seq<nat>, ss: seq<Section>, out: seq<Section>) {
    |at| == |ss| && TakenFrom(at, ss, out)
  }

  ghost predicate TakenFrom(at: seq<nat>, ss: seq<Section>, out: seq<Section>) {
    && |at| == |out|
    && (forall i :: 0 <= i < |at| ==> at[i] < |ss| && out[i] == ss[at[i]])
    && (forall i, j :: 0 <= i < j < |at| ==> at[i] != at[j] && (Ties(out[i], out[j]) ==> at[i] < at[j]))
  }

  function PartOf(parts: seq<int>, k: nat): int {
    if k < |parts| then parts[k] else 0
  }

  ghost predicate AheadAt(a: seq<int>, b: seq<int>, k: nat) {
    PartOf(a, k) > PartOf(b, k) && forall j: nat :: j < k ==> PartOf(a, j) == PartOf(b, j)
  }

  lemma AheadShift(a: seq<int>, b: seq<int>, k: nat)
    requires PartOf(a, 0) == PartOf(b, 0)
    ensures AheadAt(a, b, k + 1) <==> AheadAt(Rest(a), Rest(b), k)
  {
    forall j: nat ensures PartOf(Rest(a), j) == PartOf(a, j + 1) && PartOf(Rest(b), j) == PartOf(b, j + 1) { }
    if AheadAt(a, b, k + 1) {
      forall j: nat | j < k ensures PartOf(Rest(a), j) == PartOf(Rest(b), j) { assert j + 1 < k + 1; }
    }
    if AheadAt(Rest(a), Rest(b), k) {
      forall j: nat | j < k + 1 ensures PartOf(a, j) == PartOf(b, j) {
        if j > 0 { assert PartOf(Rest(a), j - 1) == PartOf(Rest(b), j - 1); }
      }
    }
  }

  lemma {:induction false} AheadLater(a: seq<int>, b: seq<int>)
    requires PartOf(a, 0) == PartOf(b, 0)
    ensures (exists k: nat :: AheadAt(a, b, k)) <==> exists k: nat :: AheadAt(Rest(a), Rest(b), k)
  {
    if k: nat :| AheadAt(a, b, k) {
      assert k > 0;
      AheadShift(a, b, k - 1);
      assert AheadAt(Rest(a), Rest(b), k - 1);
    }
    if k: nat :| AheadAt(Rest(a), Rest(b), k) {
      AheadShift(a, b, k);
      assert AheadAt(a, b, k + 1);
    }
  }

  lemma {:induction false} NotOlderIff(a: seq<int>, b: seq<int>)
    ensures NotOlder(a, b) <==> !exists k: nat :: AheadAt(b, a, k)
    decreases |a| + |b|
  {
    var x, y := PartOf(a, 0), PartOf(b, 0);
    if a != [] || b != [] {
      assert NotOlder(a, b) <==> x > y || (x == y && NotOlder(Rest(a), Rest(b)));
      if x == y {
        NotOlderIff(Rest(a), Rest(b));
        AheadLater(b, a);
      } else {
        assert y > x ==> AheadAt(b, a, 0);
        forall k: nat ensures x > y ==> !AheadAt(b, a, k) { assert k > 0 ==> 0 < k; }
      }
    }
  }

  /** The order of the sort in terms of the parts. */
  lemma ByVersionIs(a: Section, b: Section)
    ensures ByVersion()(a, b) <==> !exists k: nat :: NewerAt(b, a, k)
    ensures SameVersion(a, b) ==> ByVersion()(a, b) && ByVersion()(b, a)
  {
    forall s: Section, k: nat ensures Part(s, k) == PartOf(Parts(s), k) { }
    forall k: nat ensures NewerAt(b, a, k) <==> AheadAt(Parts(b), Parts(a), k) { }
    forall k: nat ensures NewerAt(a, b, k) <==> AheadAt(Parts(a), Parts(b), k) { }
    NotOlderIff(Parts(a), Parts(b));
    NotOlderIff(Parts(b), Parts(a));
  }

  lemma ReleasesInPlace(rs: seq<Section>)
    requires forall i :: 0 <= i < |rs| ==> IsReleased(rs[i])
    requires forall i, j :: 0 <= i < j < |rs| ==> ByVersion()(rs[i], rs[j])
    ensures LatestFirst(rs)
  {
    forall i, j | 0 <= i < j < |rs| ensures InPlace(rs[i], rs[j]) { ByVersionIs(rs[i], rs[j]); }
  }

  lemma UnreleasedInFront(us: seq<Section>, rs: seq<Section>)
    requires (forall i :: 0 <= i < |us| ==> IsUnreleased(us[i])) && LatestFirst(rs)
    requires forall i :: 0 <= i < |rs| ==> IsReleased(rs[i])
    ensures LatestFirst(us + rs)
  {
    var out := us + rs;
    forall i, j | 0 <= i < j < |out| ensures InPlace(out[i], out[j]) {
      if i >= |us| { assert out[i] == rs[i - |us|] && out[j] == rs[j - |us|]; }
    }
  }

  lemma SortedLatestFirst(ss: seq<Section>)
    ensures LatestFirst(SortSections(ss))
  {
    var r := Those(ss, IsReleased);
    ThoseMember(ss, IsUnreleased);
    ThoseMember(ss, IsReleased);
    Orderings();
    SortInOrder(r, ByVersion());
    ReleasesInPlace(Sort(r, ByVersion()));
    UnreleasedInFront(Those(ss, IsUnreleased), Sort(r, ByVersion()));
  }

  // ---------- What the order of categories is ----------

  const LISTED: seq<string> := ["Breaking Changes", "Added", "Changed", "Fixed", "Removed"]

  /** Category `b` may follow `a`: a listed one follows only those before it in the list. */
  ghost predicate MayFollow(a: string, b: string) {
    forall m :: 0 <= m < |LISTED| && b == LISTED[m] ==> exists l :: 0 <= l <= m && a == LISTED[l]
  }

  /** Bodies that are not blank stand in the order of their categories. */
  ghost predicate InTurn(subs: seq<Sub>) {
    forall i, j :: 0 <= i < j < |subs| && Trim(subs[i].lines) != [] && Trim(subs[j].lines) != [] ==>
      MayFollow(subs[i].title, subs[j].title)
  }

  lemma ByTitleIs(a: Sub, b: Sub)
    requires ByTitle()(a, b)
    ensures MayFollow(a.title, b.title)
  {
    var l := TitleOrder(a.title);
    forall m | 0 <= m < |LISTED| && b.title == LISTED[m] ensures exists l :: 0 <= l <= m && a.title == LISTED[l] {
      assert TitleOrder(b.title) == m;
      assert a.title == LISTED[l];
    }
  }

  lemma {:induction false} SortedInTurn(subs: seq<Sub>)
    ensures InTurn(Sort(subs, ByTitle()))
  {
    Orderings();
    SortInOrder(subs, ByTitle());
    var out := Sort(subs, ByTitle());
    forall i, j | 0 <= i < j < |out| ensures MayFollow(out[i].title, out[j].title) { ByTitleIs(out[i], out[j]); }
  }

  /** The place in the trimmed list of a body that is not blank. */
  function TrimmedPlace(subs: seq<Sub>, i: nat): nat {
    if i == 0 || subs == [] then 0
    else (if Trim(subs[0].lines) == [] then 0 else 1) + TrimmedPlace(subs[1..], i - 1)
  }

  lemma {:induction false} TrimmedPlaceIs(subs: seq<Sub>, i: nat)
    requires i < |subs| && Trim(subs[i].lines) != []
    ensures TrimmedPlace(subs, i) < |TrimSubs(subs)|
    ensures TrimSubs(subs)[TrimmedPlace(subs, i)] == Sub(subs[i].title, Trim(subs[i].lines), 0)
    decreases i
  {
    if i > 0 { TrimmedPlaceIs(subs[1..], i - 1); }
  }

  lemma {:induction false} TrimmedPlaceRises(subs: seq<Sub>, i: nat, j: nat)
    requires i < j < |subs| && Trim(subs[i].lines) != []
    ensures TrimmedPlace(subs, i) < TrimmedPlace(subs, j)
    decreases i
  {
    if i > 0 { TrimmedPlaceRises(subs[1..], i - 1, j - 1); }
  }

  lemma {:induction false} TrimmedFrom(subs: seq<Sub>, k: nat) returns (i: nat)
    requires k < |TrimSubs(subs)|
    ensures i < |subs| && Trim(subs[i].lines) != [] && TrimmedPlace(subs, i) == k
    decreases subs
  {
    if Trim(subs[0].lines) == [] {
      i := TrimmedFrom(subs[1..], k);
      i := i + 1;
    } else if k == 0 {
      i := 0;
    } else {
      i := TrimmedFrom(subs[1..], k - 1);
      i := i + 1;
    }
  }

  /** Of two bodies that are not blank, what stands in the trimmed list. */
  lemma {:induction false} TrimmedPair(subs: seq<Sub>, i: nat, j: nat)
    requires i < j < |subs| && Trim(subs[i].lines) != [] && Trim(subs[j].lines) != []
    ensures TrimmedPlace(subs, i) < TrimmedPlace(subs, j) < |TrimSubs(subs)|
    ensures TrimSubs(subs)[TrimmedPlace(subs, i)].title == subs[i].title
    ensures TrimSubs(subs)[TrimmedPlace(subs, j)].title == subs[j].title
  {
    TrimmedPlaceIs(subs, i);
    TrimmedPlaceIs(subs, j);
    TrimmedPlaceRises(subs, i, j);
  }

  lemma {:induction false} PlacesTell(subs: seq<Sub>, i: nat, j: nat)
    requires i < |subs| && j < |subs| && Trim(subs[i].lines) != [] && Trim(subs[j].lines) != []
    requires TrimmedPlace(subs, i) < TrimmedPlace(subs, j)
    ensures i < j
  {
    if j < i { TrimmedPlaceRises(subs, j, i); }
  }

  lemma {:induction false} TrimmedInTurn(a: seq<Sub>, p: nat, q: nat)
    requires InTurn(a) && p < q < |TrimSubs(a)|
    ensures MayFollow(TrimSubs(a)[p].title, TrimSubs(a)[q].title)
  {
    var k := TrimmedFrom(a, p);
    var l := TrimmedFrom(a, q);
    PlacesTell(a, k, l);
    TrimmedPair(a, k, l);
    Follows(a, k, l);
  }

  lemma {:induction false} Follows(a: seq<Sub>, k: nat, l: nat)
    requires InTurn(a) && k < l < |a| && Trim(a[k].lines) != [] && Trim(a[l].lines) != []
    ensures MayFollow(a[k].title, a[l].title)
  {
  }

  /** Only the bodies that are not blank matter. */
  lemma {:induction false} InTurnTrims(a: seq<Sub>, b: seq<Sub>)
    requires InTurn(a) && TrimSubs(a) == TrimSubs(b)
    ensures InTurn(b)
  {
    forall i, j | 0 <= i < j < |b| && Trim(b[i].lines) != [] && Trim(b[j].lines) != []
      ensures MayFollow(b[i].title, b[j].title)
    {
      TrimmedPair(b, i, j);
      TrimmedInTurn(a, TrimmedPlace(b, i), TrimmedPlace(b, j));
    }
  }

  // ---------- Where each section comes from ----------

  /** `at` are the places of what `which` picks, in order. */
  ghost predicate PickedAt(at: seq<nat>, ss: seq<Section>, which: Section -> bool) {
    && |at| == |Those(ss, which)|
    && (forall i :: 0 <= i < |at| ==> at[i] < |ss| && Those(ss, which)[i] == ss[at[i]])
    && (forall i, j :: 0 <= i < j < |at| ==> at[i] < at[j])
  }

  function ShiftedBy(at: seq<nat>): seq<nat> {
    seq(|at|, i requires 0 <= i < |at| => at[i] + 1)
  }

  lemma PickedMore(s: Section, rest: seq<Section>, which: Section -> bool, at: seq<nat>)
    requires PickedAt(at, rest, which)
    ensures PickedAt((if which(s) then [0] else []) + ShiftedBy(at), [s] + rest, which)
  {
    var ss, picked := [s] + rest, Those(rest, which);
    var first: seq<nat>, one := if which(s) then [0] else [], if which(s) then [s] else [];
    var more := first + ShiftedBy(at);
    assert ss[1..] == rest;
    assert Those(ss, which) == one + picked;
    forall i | 0 <= i < |more| ensures more[i] < |ss| && Those(ss, which)[i] == ss[more[i]] {
      if i >= |first| { assert picked[i - |first|] == rest[at[i - |first|]]; }
    }
  }

  lemma {:induction false} ThoseAt(ss: seq<Section>, which: Section -> bool) returns (at: seq<nat>)
    ensures PickedAt(at, ss, which)
    decreases ss
  {
    if ss == [] {
      at := [];
    } else {
      var later := ThoseAt(ss[1..], which);
      PickedMore(ss[0], ss[1..], which, later);
      HeadAndTail(ss);
      at := (if which(ss[0]) then [0] else []) + ShiftedBy(later);
    }
  }

  function Through(at: seq<nat>, pick: seq<nat>): seq<nat>
    requires forall i :: 0 <= i < |pick| ==> pick[i] < |at|
  {
    seq(|pick|, i requires 0 <= i < |pick| => at[pick[i]])
  }

  /** Sections of different kinds come from different places. */
  lemma PlacesApart(ss: seq<Section>, u: seq<nat>, r: seq<nat>)
    requires PickedAt(u, ss, IsUnreleased) && PickedAt(r, ss, IsReleased)
    ensures forall i, j :: 0 <= i < |u| && 0 <= j < |r| ==> u[i] != r[j]
  {
    ThoseMember(ss, IsUnreleased);
    ThoseMember(ss, IsReleased);
    forall i, j | 0 <= i < |u| && 0 <= j < |r| ensures u[i] != r[j] {
      assert Those(ss, IsUnreleased)[i] in Those(ss, IsUnreleased);
      assert Those(ss, IsReleased)[j] in Those(ss, IsReleased);
    }
  }

  lemma {:induction false} UnreleasedTaken(ss: seq<Section>, u: seq<nat>)
    requires PickedAt(u, ss, IsUnreleased)
    ensures TakenFrom(u, ss, Those(ss, IsUnreleased))
  {
  }

  lemma {:induction false} ReleasesTaken(ss: seq<Section>, r: seq<nat>, pick: seq<nat>, out: seq<Section>)
    requires PickedAt(r, ss, IsReleased) && FromPlaces(pick, Those(ss, IsReleased), out, ByVersion())
    ensures forall i :: 0 <= i < |pick| ==> pick[i] < |r|
    ensures TakenFrom(Through(r, pick), ss, out)
    ensures forall i :: 0 <= i < |pick| ==> Through(r, pick)[i] in r && IsReleased(out[i])
  {
    ThoseMember(ss, IsReleased);
    forall i | 0 <= i < |pick| ensures IsReleased(out[i]) {
      assert Those(ss, IsReleased)[pick[i]] in Those(ss, IsReleased);
    }
    forall i, j | 0 <= i < j < |pick| && Ties(out[i], out[j]) ensures pick[i] < pick[j] {
      ByVersionIs(out[i], out[j]);
    }
    forall i, j | 0 <= i < j < |pick| ensures r[pick[i]] != r[pick[j]] {
      if pick[i] < pick[j] { assert r[pick[i]] < r[pick[j]]; } else { assert r[pick[j]] < r[pick[i]]; }
    }
  }

  lemma TakenBoth(ss: seq<Section>, u: seq<nat>, unreleased: seq<Section>, r: seq<nat>, released: seq<Section>)
    requires TakenFrom(u, ss, unreleased) && TakenFrom(r, ss, released)
    requires forall i, j :: 0 <= i < |u| && 0 <= j < |r| ==> u[i] != r[j]
    requires forall i :: 0 <= i < |unreleased| ==> IsUnreleased(unreleased[i])
    requires forall i :: 0 <= i < |released| ==> IsReleased(released[i])
    ensures TakenFrom(u + r, ss, unreleased + released)
  {
  }

  lemma SortedRearranges(ss: seq<Section>) returns (at: seq<nat>)
    ensures Rearranged(at, ss, SortSections(ss))
  {
    var u := ThoseAt(ss, IsUnreleased);
    var r := ThoseAt(ss, IsReleased);
    var sorted := Sort(Those(ss, IsReleased), ByVersion());
    Orderings();
    var pick := SortPlaces(Those(ss, IsReleased), ByVersion());
    UnreleasedTaken(ss, u);
    ReleasesTaken(ss, r, pick, sorted);
    PlacesApart(ss, u, r);
    ThoseMember(ss, IsUnreleased);
    TakenBoth(ss, u, Those(ss, IsUnreleased), Through(r, pick), sorted);
    CountThose(ss);
    at := u + Through(r, pick);
  }

  lemma {:induction false} CountThose(ss: seq<Section>)
    ensures |Those(ss, IsUnreleased)| + |Those(ss, IsReleased)| == |ss|
    decreases ss
  {
    if ss != [] { CountThose(ss[1..]); }
  }
}

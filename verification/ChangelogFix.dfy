/** The changelog fixer of scripts/fix-changelogs.ts: released duplicates are dropped from
    Unreleased, new bullets promoted to it, sections normalised and sorted. */
module ChangelogFix {
  import opened Common
  import opened ChangelogItems
  import opened ChangelogText
  import opened ChangelogMerge

  // ---------- Keys ----------

  function SubKeys(s: Sub): set<Body> {
    set k | k in Items(s.lines)
  }

  function SubsKeys(subs: seq<Sub>): set<Body> {
    set s, k | s in subs && k in Items(s.lines) :: k
  }

  predicate IsUnreleased(s: Section) {
    s.heading.Release? && s.heading.title == Unreleased
  }

  predicate IsReleased(s: Section) {
    !IsUnreleased(s)
  }

  predicate Any(s: Section) {
    true
  }

  /** The keys of all items in some of the sections. */
  function KeysOf(ss: seq<Section>, which: Section -> bool): set<Body> {
    set s, k | s in ss && which(s) && k in SubsKeys(s.subs) :: k
  }

  lemma KeyAtSub(subs: seq<Sub>, k: Body)
    ensures k in SubsKeys(subs) <==> exists j :: 0 <= j < |subs| && k in SubKeys(subs[j])
  {
    if k in SubsKeys(subs) {
      var s :| s in subs && k in Items(s.lines);
      var j :| 0 <= j < |subs| && subs[j] == s;
      assert k in SubKeys(subs[j]);
    }
    if j :| 0 <= j < |subs| && k in SubKeys(subs[j]) { assert subs[j] in subs; }
  }

  lemma KeyAtSection(ss: seq<Section>, which: Section -> bool, k: Body)
    ensures k in KeysOf(ss, which) <==> exists i :: 0 <= i < |ss| && which(ss[i]) && k in SubsKeys(ss[i].subs)
  {
    if k in KeysOf(ss, which) {
      var s :| s in ss && which(s) && k in SubsKeys(s.subs);
      var i :| 0 <= i < |ss| && ss[i] == s;
      assert which(ss[i]) && k in SubsKeys(ss[i].subs);
    }
    if i :| 0 <= i < |ss| && which(ss[i]) && k in SubsKeys(ss[i].subs) { assert ss[i] in ss; }
  }

  lemma SubsKeysCat(a: seq<Sub>, b: seq<Sub>)
    ensures SubsKeys(a + b) == SubsKeys(a) + SubsKeys(b)
  {
    forall k ensures k in SubsKeys(a + b) <==> k in SubsKeys(a) + SubsKeys(b) {
      if k in SubsKeys(a) {
        var s :| s in a && k in Items(s.lines);
        assert s in a + b;
      }
      if k in SubsKeys(b) {
        var s :| s in b && k in Items(s.lines);
        assert s in a + b;
      }
    }
  }

  lemma SubsKeysOne(s: Sub)
    ensures SubsKeys([s]) == SubKeys(s)
  {
    assert s in [s];
  }

  lemma SubsKeysUpdate(subs: seq<Sub>, i: nat, s: Sub)
    requires i < |subs|
    ensures SubsKeys(subs) == SubsKeys(subs[..i]) + SubKeys(subs[i]) + SubsKeys(subs[i + 1..])
    ensures SubsKeys(subs[i := s]) == SubsKeys(subs[..i]) + SubKeys(s) + SubsKeys(subs[i + 1..])
  {
    var a, b := subs[..i], subs[i + 1..];
    assert subs == a + [subs[i]] + b && subs[i := s] == a + [s] + b;
    SubsKeysCat(a + [subs[i]], b);
    SubsKeysCat(a + [s], b);
    SubsKeysCat(a, [subs[i]]);
    SubsKeysCat(a, [s]);
    SubsKeysOne(subs[i]);
    SubsKeysOne(s);
  }

  // ---------- Keys with their categories ----------

  type Tag = (string, Body)

  function SubTags(s: Sub): set<Tag> {
    set k | k in Items(s.lines) :: (s.title, k)
  }

  /** The keys of all items, each with the category it stands under. */
  function SubsTags(subs: seq<Sub>): set<Tag> {
    set s, k | s in subs && k in Items(s.lines) :: (s.title, k)
  }

  lemma TagAt(subs: seq<Sub>, title: string, k: Body)
    ensures (title, k) in SubsTags(subs) <==> exists s :: s in subs && s.title == title && k in Items(s.lines)
  {
  }

  lemma SubsTagsCat(a: seq<Sub>, b: seq<Sub>)
    ensures SubsTags(a + b) == SubsTags(a) + SubsTags(b)
  {
    forall title, k ensures (title, k) in SubsTags(a + b) <==> (title, k) in SubsTags(a) + SubsTags(b) {
      TagAt(a + b, title, k);
      TagAt(a, title, k);
      TagAt(b, title, k);
    }
  }

  lemma SubsTagsOne(s: Sub)
    ensures SubsTags([s]) == SubTags(s)
  {
    assert s in [s];
  }

  lemma SubsTagsUpdate(subs: seq<Sub>, i: nat, s: Sub, more: set<Tag>)
    requires i < |subs| && SubTags(s) == SubTags(subs[i]) + more
    ensures SubsTags(subs[i := s]) == SubsTags(subs) + more
  {
    var a, b := subs[..i], subs[i + 1..];
    assert subs == a + [subs[i]] + b && subs[i := s] == a + [s] + b;
    SubsTagsCat(a + [subs[i]], b);
    SubsTagsCat(a + [s], b);
    SubsTagsCat(a, [subs[i]]);
    SubsTagsCat(a, [s]);
    SubsTagsOne(subs[i]);
    SubsTagsOne(s);
  }

  lemma KeysOfCat(a: seq<Section>, b: seq<Section>, which: Section -> bool)
    ensures KeysOf(a + b, which) == KeysOf(a, which) + KeysOf(b, which)
  {
    forall k ensures k in KeysOf(a + b, which) <==> k in KeysOf(a, which) + KeysOf(b, which) {
      if k in KeysOf(a, which) {
        var s :| s in a && which(s) && k in SubsKeys(s.subs);
        assert s in a + b;
      }
      if k in KeysOf(b, which) {
        var s :| s in b && which(s) && k in SubsKeys(s.subs);
        assert s in a + b;
      }
    }
  }

  lemma KeysOfOne(s: Section, which: Section -> bool)
    ensures KeysOf([s], which) == if which(s) then SubsKeys(s.subs) else {}
  {
    assert s in [s];
  }

  lemma KeysOfUpdate(ss: seq<Section>, i: nat, s: Section, which: Section -> bool)
    requires i < |ss|
    ensures KeysOf(ss, which) == KeysOf(ss[..i], which) + KeysOf([ss[i]], which) + KeysOf(ss[i + 1..], which)
    ensures KeysOf(ss[i := s], which) == KeysOf(ss[..i], which) + KeysOf([s], which) + KeysOf(ss[i + 1..], which)
  {
    var a, b := ss[..i], ss[i + 1..];
    assert ss == a + [ss[i]] + b && ss[i := s] == a + [s] + b;
    KeysOfCat(a + [ss[i]], b, which);
    KeysOfCat(a + [s], b, which);
    KeysOfCat(a, [ss[i]], which);
    KeysOfCat(a, [s], which);
  }

  lemma KeysSplit(ss: seq<Section>)
    ensures KeysOf(ss, Any) == KeysOf(ss, IsReleased) + KeysOf(ss, IsUnreleased)
  {
  }

  // ---------- Dropping what has been released ----------

  function FirstUnreleased(ss: seq<Section>): (i: nat)
    ensures i <= |ss| && (i < |ss| ==> IsUnreleased(ss[i]))
  {
    if ss == [] then 0 else if IsUnreleased(ss[0]) then 0 else 1 + FirstUnreleased(ss[1..])
  }

  ghost predicate DroppedSub(s: Sub, t: Sub, released: set<Body>) {
    && t.title == s.title && SubKeys(t) == SubKeys(s) - released
    && (SubKeys(s) !! released ==> t == s)
    && (forall l <- t.lines :: l in s.lines)
    && (StartsAtBullet(Trim(s.lines)) ==> StartsAtBullet(Trim(t.lines)))
  }

  method DropFrom(s: Sub, released: set<Body>) returns (t: Sub)
    ensures DroppedSub(s, t, released)
  {
    var sel := (it: Item) => Trim(it.lines) in released;
    var items := ItemsOf(s.lines, s.first);
    var gone := LineRangeSet(items, sel);
    FilterRemovesItems(s.lines, s.first, gone, sel);
    KeptKeys(s.lines, s.first, sel, (k: Body) => k in released);
    FilterIn(s.lines, s.first, gone);
    if StartsAtBullet(Trim(s.lines)) { FilterStarts(s.lines, s.first, gone, sel); }
    if SubKeys(s) !! released { NothingSelected(s, gone, sel, released); }
    t := s.(lines := Filter(s.lines, s.first, gone));
  }

  lemma {:induction false} ItemsFromKeys(segs: seq<Body>, start: nat)
    ensures |ItemsFrom(segs, start)| == |segs|
    ensures forall i :: 0 <= i < |segs| ==> ItemsFrom(segs, start)[i].lines == segs[i]
    decreases segs
  {
    if segs != [] {
      ItemsFromKeys(segs[1..], start + |segs[0]|);
      forall i | 0 < i < |segs| ensures ItemsFrom(segs, start)[i].lines == segs[i] {
        assert ItemsFrom(segs, start)[i] == ItemsFrom(segs[1..], start + |segs[0]|)[i - 1];
      }
    }
  }

  lemma {:induction false} KeptMember(items: seq<Item>, sel: Item -> bool, l: Body)
    ensures l in Kept(items, sel) <==> exists i :: 0 <= i < |items| && !sel(items[i]) && items[i].lines == l
    decreases items
  {
    if items != [] {
      KeptMember(items[1..], sel, l);
      HeadAndTail(items);
      if l in Kept(items[1..], sel) {
        var i :| 0 <= i < |items[1..]| && !sel(items[1..][i]) && items[1..][i].lines == l;
        assert items[i + 1] == items[1..][i];
      }
    }
  }

  lemma KeyAt(ls: Body, first: nat, i: nat)
    requires i < |ItemsOf(ls, first)|
    ensures |Items(ls)| == |ItemsOf(ls, first)|
    ensures Items(ls)[i] == Trim(ItemsOf(ls, first)[i].lines)
  {
    ItemsFromKeys(Segs(ls).segs, first + |Segs(ls).lead|);
  }

  lemma KeyAmong(ls: Body, first: nat, k: Body)
    ensures var items := ItemsOf(ls, first);
            k in Items(ls) <==> exists i :: 0 <= i < |items| && Trim(items[i].lines) == k
  {
    var items := ItemsOf(ls, first);
    ItemsFromKeys(Segs(ls).segs, first + |Segs(ls).lead|);
    if k in Items(ls) {
      var i :| 0 <= i < |items| && Items(ls)[i] == k;
      KeyAt(ls, first, i);
    }
    if i :| 0 <= i < |items| && Trim(items[i].lines) == k { KeyAt(ls, first, i); }
  }

  lemma {:induction false} KeptKey(items: seq<Item>, sel: Item -> bool, k: Body)
    ensures k in TrimAll(Kept(items, sel)) <==> exists i :: 0 <= i < |items| && !sel(items[i]) && Trim(items[i].lines) == k
  {
    var kept := Kept(items, sel);
    if k in TrimAll(kept) {
      var j :| 0 <= j < |kept| && Trim(kept[j]) == k;
      KeptMember(items, sel, kept[j]);
    }
    if i :| 0 <= i < |items| && !sel(items[i]) && Trim(items[i].lines) == k {
      KeptMember(items, sel, items[i].lines);
      var j :| 0 <= j < |kept| && kept[j] == items[i].lines;
      assert TrimAll(kept)[j] == k;
    }
  }

  /** If items are chosen by their keys, the keys that stay are the others. */
  lemma KeptKeys(ls: Body, first: nat, sel: Item -> bool, out: Body -> bool)
    requires forall it: Item :: sel(it) <==> out(Trim(it.lines))
    ensures forall k :: k in TrimAll(Kept(ItemsOf(ls, first), sel)) <==> k in Items(ls) && !out(k)
  {
    forall k ensures k in TrimAll(Kept(ItemsOf(ls, first), sel)) <==> k in Items(ls) && !out(k) {
      KeyAmong(ls, first, k);
      KeptKey(ItemsOf(ls, first), sel, k);
    }
  }

  lemma {:induction false} FilterIn(ls: Body, first: nat, gone: set<nat>)
    ensures forall l <- Filter(ls, first, gone) :: l in ls
    decreases ls
  {
    if ls != [] {
      FilterIn(ls[1..], first + 1, gone);
      HeadAndTail(ls);
    }
  }

  lemma {:induction false} LeadBlank(ls: Body)
    requires StartsAtBullet(Trim(ls))
    ensures AllBlank(Segs(ls).lead)
  {
    var pre, post := TrimParts(ls);
    if Trim(ls) == [] {
      assert ls == pre + post;
      SegsOfLead(ls);
    } else {
      var rest := Trim(ls) + post;
      assert ls == pre + rest;
      SegsCat(pre, rest);
      SegsOfLead(pre);
    }
  }

  lemma {:induction false} FilterStarts(ls: Body, first: nat, gone: set<nat>, sel: Item -> bool)
    requires StartsAtBullet(Trim(ls)) && IsRange(gone, ItemsOf(ls, first), sel)
    ensures StartsAtBullet(Trim(Filter(ls, first, gone)))
  {
    LeadBlank(ls);
    FilterRemovesItems(ls, first, gone, sel);
    SegsAreSegs(ls);
    KeptSegs(Segs(ls).segs, first + |Segs(ls).lead|, sel);
    var flat := Flat(Kept(ItemsOf(ls, first), sel));
    SegsOfFlat(Kept(ItemsOf(ls, first), sel));
    TrimAround(Segs(ls).lead, flat, []);
    assert Segs(ls).lead + flat + [] == Segs(ls).lead + flat;
    if flat != [] {
      var post := TrimEndParts(flat);
      TrimEndKeepsHead(flat);
    }
  }

  lemma {:induction false} FilterNothing(ls: Body, first: nat)
    ensures Filter(ls, first, {}) == ls
    decreases ls
  {
    FilterAllOrNone(ls, first, {}, false);
  }

  lemma {:induction false} NothingSelected(s: Sub, gone: set<nat>, sel: Item -> bool, released: set<Body>)
    requires IsRange(gone, ItemsOf(s.lines, s.first), sel) && SubKeys(s) !! released
    requires forall it: Item :: sel(it) <==> Trim(it.lines) in released
    ensures Filter(s.lines, s.first, gone) == s.lines
  {
    var items, segs := ItemsOf(s.lines, s.first), Segs(s.lines).segs;
    ItemsFromKeys(segs, s.first + |Segs(s.lines).lead|);
    forall i | 0 <= i < |items| ensures !sel(items[i]) {
      assert Items(s.lines)[i] == Trim(segs[i]) && Items(s.lines)[i] in SubKeys(s);
    }
    assert gone == {};
    FilterNothing(s.lines, s.first);
  }

  // ---------- What every step keeps ----------

  predicate Bulleted(s: Sub) {
    StartsAtBullet(Trim(s.lines))
  }

  predicate Headless(s: Sub) {
    NoHead(s.lines, IsRelease) && NoHead(s.lines, IsCategory)
  }

  predicate HeadlessSubs(subs: seq<Sub>) {
    forall j :: 0 <= j < |subs| ==> Headless(subs[j])
  }

  predicate GoodSubs(subs: seq<Sub>) {
    forall j :: 0 <= j < |subs| ==> Headless(subs[j]) && Bulleted(subs[j])
  }

  /** As parsed. */
  predicate Wellformed(s: Section) {
    && s.heading.Release? && NoHead(s.leading, IsRelease) && NoHead(s.leading, IsCategory)
    && HeadlessSubs(s.subs)
  }

  predicate AllWellformed(ss: seq<Section>) {
    forall i :: 0 <= i < |ss| ==> Wellformed(ss[i])
  }

  /** As parsed, with every category body beginning at a bullet. */
  predicate GoodSection(s: Section) {
    Wellformed(s) && GoodSubs(s.subs)
  }

  predicate GoodSections(ss: seq<Section>) {
    forall i :: 0 <= i < |ss| ==> GoodSection(ss[i])
  }

  ghost predicate DroppedSubs(a: seq<Sub>, b: seq<Sub>, released: set<Body>) {
    |a| == |b| && forall j :: 0 <= j < |a| ==> DroppedSub(a[j], b[j], released)
  }

  lemma DroppedKeys(a: seq<Sub>, b: seq<Sub>, released: set<Body>)
    requires DroppedSubs(a, b, released)
    ensures SubsKeys(b) == SubsKeys(a) - released
  {
    forall k ensures k in SubsKeys(b) <==> k in SubsKeys(a) - released { DroppedKey(a, b, released, k); }
  }

  lemma DroppedKey(a: seq<Sub>, b: seq<Sub>, released: set<Body>, k: Body)
    requires DroppedSubs(a, b, released)
    ensures k in SubsKeys(b) <==> k in SubsKeys(a) && k !in released
  {
    KeyAtSub(a, k);
    KeyAtSub(b, k);
    if j :| 0 <= j < |b| && k in SubKeys(b[j]) { assert DroppedSub(a[j], b[j], released) && k in SubKeys(a[j]); }
    if j :| 0 <= j < |a| && k in SubKeys(a[j]) { assert DroppedSub(a[j], b[j], released); }
  }

  lemma DroppedNothing(a: seq<Sub>, b: seq<Sub>, released: set<Body>)
    requires DroppedSubs(a, b, released) && SubsKeys(a) !! released
    ensures a == b
  {
    forall j | 0 <= j < |a| ensures a[j] == b[j] {
      OneOfSubs(a, j);
      assert DroppedSub(a[j], b[j], released);
    }
  }

  lemma DroppedGood(a: seq<Sub>, b: seq<Sub>, released: set<Body>)
    requires DroppedSubs(a, b, released) && GoodSubs(a)
    ensures GoodSubs(b)
  {
    forall j | 0 <= j < |a| ensures Headless(b[j]) && Bulleted(b[j]) {
      assert DroppedSub(a[j], b[j], released);
      StillHeadless(a[j], b[j]);
    }
  }

  lemma DroppedHeadless(a: seq<Sub>, b: seq<Sub>, released: set<Body>)
    requires DroppedSubs(a, b, released) && HeadlessSubs(a)
    ensures HeadlessSubs(b)
  {
    forall j | 0 <= j < |a| ensures Headless(b[j]) {
      assert DroppedSub(a[j], b[j], released);
      StillHeadless(a[j], b[j]);
    }
  }

  method DropFromSection(s: Section, released: set<Body>) returns (t: Section)
    ensures t == s.(subs := t.subs) && DroppedSubs(s.subs, t.subs, released)
  {
    var subs: seq<Sub> := [];
    var j := 0;
    while j < |s.subs|
      invariant 0 <= j <= |s.subs| && |subs| == j
      invariant forall i :: 0 <= i < j ==> DroppedSub(s.subs[i], subs[i], released)
    {
      var sub := DropFrom(s.subs[j], released);
      subs := subs + [sub];
      j := j + 1;
    }
    t := s.(subs := subs);
  }

  lemma OneOfSubs(subs: seq<Sub>, j: nat)
    requires j < |subs|
    ensures SubKeys(subs[j]) <= SubsKeys(subs)
  {
    assert subs[j] in subs;
  }

  lemma StillHeadless(s: Sub, t: Sub)
    requires Headless(s) && forall l <- t.lines :: l in s.lines
    ensures Headless(t)
  {
    InNoHead(t.lines, s.lines, IsRelease);
    InNoHead(t.lines, s.lines, IsCategory);
  }

  ghost predicate SameOutline(a: seq<Section>, b: seq<Section>) {
    |a| == |b| && forall i :: 0 <= i < |a| ==>
      && a[i].heading == b[i].heading && |a[i].subs| == |b[i].subs|
      && forall j :: 0 <= j < |a[i].subs| ==> a[i].subs[j].title == b[i].subs[j].title
  }

  /** Nothing in the first Unreleased section has been released already. */
  predicate NoneReleased(ss: seq<Section>) {
    var u := FirstUnreleased(ss);
    u < |ss| ==> SubsKeys(ss[u].subs) !! KeysOf(ss, IsReleased)
  }

  lemma DroppedAt(ss: seq<Section>, u: nat, section: Section, released: set<Body>)
    requires u == FirstUnreleased(ss) < |ss| && section == ss[u].(subs := section.subs)
    requires released == KeysOf(ss, IsReleased) && DroppedSubs(ss[u].subs, section.subs, released)
    ensures var ds := ss[u := section];
            KeysOf(ds, IsReleased) == released && KeysOf(ds, Any) == KeysOf(ss, Any)
  {
    var ds := ss[u := section];
    DroppedKeys(ss[u].subs, section.subs, released);
    KeysOfUpdate(ss, u, section, IsReleased);
    KeysOfUpdate(ss, u, section, IsUnreleased);
    KeysOfOne(ss[u], IsReleased);
    KeysOfOne(section, IsReleased);
    KeysOfOne(ss[u], IsUnreleased);
    KeysOfOne(section, IsUnreleased);
    KeysSplit(ss);
    KeysSplit(ds);
  }

  /** Title by title, no line that was not there. */
  ghost predicate OnlyLines(a: seq<Sub>, b: seq<Sub>) {
    |a| == |b| && forall j :: 0 <= j < |a| ==> a[j].title == b[j].title && forall l <- b[j].lines :: l in a[j].lines
  }

  lemma DroppedOnly(a: seq<Sub>, b: seq<Sub>, released: set<Body>)
    requires DroppedSubs(a, b, released)
    ensures OnlyLines(a, b)
  {
    forall j | 0 <= j < |a| ensures a[j].title == b[j].title && forall l <- b[j].lines :: l in a[j].lines {
      assert DroppedSub(a[j], b[j], released);
    }
  }

  /** What dropping leaves: the same outline, the same keys in the document, and in the first
      Unreleased section, the only one that changes, the keys that no release has. */
  ghost predicate Dropped(ss: seq<Section>, ds: seq<Section>) {
    var u := FirstUnreleased(ss);
    && SameOutline(ss, ds) && (forall i :: 0 <= i < |ss| && i != u ==> ds[i] == ss[i])
    && (u < |ss| ==> SubsKeys(ds[u].subs) == SubsKeys(ss[u].subs) - KeysOf(ss, IsReleased))
    && (u < |ss| ==> OnlyLines(ss[u].subs, ds[u].subs))
    && KeysOf(ds, IsReleased) == KeysOf(ss, IsReleased)
    && KeysOf(ds, Any) == KeysOf(ss, Any) && NoneReleased(ds)
  }

  /** Only items that a released section has, too, go. */
  method DropUnreleasedDuplicates(ss: seq<Section>) returns (ds: seq<Section>)
    requires AllWellformed(ss)
    ensures Dropped(ss, ds) && (NoneReleased(ss) ==> ds == ss)
    ensures AllWellformed(ds) && (GoodSections(ss) ==> GoodSections(ds))
  {
    var u := FirstUnreleased(ss);
    if u == |ss| { return ss; }
    var released := KeysOf(ss, IsReleased);
    var section := DropFromSection(ss[u], released);
    ds := ss[u := section];
    DroppedIs(ss, u, section, released);
    DroppedGoodAt(ss, u, section, released);
    if NoneReleased(ss) { DroppedNothing(ss[u].subs, section.subs, released); }
  }

  lemma {:induction false} DroppedIs(ss: seq<Section>, u: nat, section: Section, released: set<Body>)
    requires u == FirstUnreleased(ss) < |ss| && section == ss[u].(subs := section.subs)
    requires released == KeysOf(ss, IsReleased) && DroppedSubs(ss[u].subs, section.subs, released)
    ensures Dropped(ss, ss[u := section])
  {
    DroppedAt(ss, u, section, released);
    DroppedKeys(ss[u].subs, section.subs, released);
    SameFirst(ss, ss[u := section]);
    OutlineAt(ss, u, section, released);
    DroppedOnly(ss[u].subs, section.subs, released);
  }

  lemma DroppedGoodAt(ss: seq<Section>, u: nat, section: Section, released: set<Body>)
    requires u < |ss| && section == ss[u].(subs := section.subs) && DroppedSubs(ss[u].subs, section.subs, released)
    requires AllWellformed(ss)
    ensures AllWellformed(ss[u := section]) && (GoodSections(ss) ==> GoodSections(ss[u := section]))
  {
    assert Wellformed(ss[u]);
    DroppedHeadless(ss[u].subs, section.subs, released);
    if GoodSections(ss) {
      assert GoodSection(ss[u]);
      DroppedGood(ss[u].subs, section.subs, released);
    }
  }

  lemma OutlineAt(ss: seq<Section>, u: nat, section: Section, released: set<Body>)
    requires u < |ss| && section == ss[u].(subs := section.subs) && DroppedSubs(ss[u].subs, section.subs, released)
    ensures SameOutline(ss, ss[u := section])
  {
    forall j | 0 <= j < |section.subs| ensures section.subs[j].title == ss[u].subs[j].title {
      assert DroppedSub(ss[u].subs[j], section.subs[j], released);
    }
  }

  lemma {:induction false} SameFirst(a: seq<Section>, b: seq<Section>)
    requires |a| == |b| && forall i :: 0 <= i < |a| ==> a[i].heading == b[i].heading
    ensures FirstUnreleased(a) == FirstUnreleased(b)
    decreases a
  {
    if a != [] { SameFirst(a[1..], b[1..]); }
  }
}

/** Normalising and sorting a changelog, and what the whole fixer keeps: the last part of
    `fixChangelogContent` in scripts/fix-changelogs.ts. */
module ChangelogSettle {
  import opened ChangelogItems
  import opened ChangelogText
  import opened ChangelogMerge
  import opened ChangelogFix
  import opened ChangelogPromote
  import opened ChangelogOrder
  import opened ChangelogLayout
  import opened Common
  import opened StableSort

  // ---------- Merging the bodies of one category ----------

  function FindFirst(subs: seq<Sub>, title: string): (i: nat)
    ensures i <= |subs| && (i < |subs| ==> subs[i].title == title)
    ensures forall j :: 0 <= j < i ==> subs[j].title != title
  {
    if subs == [] then 0
    else if subs[0].title == title then 0
    else 1 + FindFirst(subs[1..], title)
  }

  /** Adds a body to those that are there: below its own title, if that is there. */
  function MergeIn(acc: seq<Sub>, title: string, lines: Body): seq<Sub> {
    var i := FindFirst(acc, title);
    if i < |acc| then acc[i := Sub(title, AppendLines(acc[i].lines, lines), 0)] else acc + [Sub(title, lines, 0)]
  }

  function MergeSubs(subs: seq<Sub>): seq<Sub> {
    if subs == [] then []
    else
      var k := |subs| - 1;
      var lines := Compact(subs[k].lines);
      if lines == [] then MergeSubs(subs[..k]) else MergeIn(MergeSubs(subs[..k]), subs[k].title, lines)
  }

  method MergeBody(acc: seq<Sub>, title: string, lines: Body) returns (merged: seq<Sub>)
    ensures merged == MergeIn(acc, title, lines)
  {
    merged := acc;
    var j := FindFirst(merged, title);
    if j < |merged| {
      merged := merged[j := Sub(title, AppendLines(merged[j].lines, lines), 0)];
    } else {
      merged := merged + [Sub(title, lines, 0)];
    }
  }

  /** The loop over a section's bodies. */
  method MergeBodies(subs: seq<Sub>) returns (merged: seq<Sub>)
    ensures merged == MergeSubs(subs)
  {
    merged := [];
    var i := 0;
    while i < |subs|
      invariant 0 <= i <= |subs| && merged == MergeSubs(subs[..i])
    {
      TakeMore(subs, i);
      MergeLast(subs[..i], subs[i]);
      var lines := Compact(subs[i].lines);
      if lines != [] { merged := MergeBody(merged, subs[i].title, lines); }
      i := i + 1;
    }
    TakeAll(subs, i);
  }

  lemma MergeInKeys(acc: seq<Sub>, title: string, lines: Body)
    requires StartsAtBullet(lines) && Trimmed(lines)
    ensures SubsKeys(MergeIn(acc, title, lines)) == SubsKeys(acc) + SubKeys(Sub(title, lines, 0))
    ensures SubsTags(MergeIn(acc, title, lines)) == SubsTags(acc) + SubTags(Sub(title, lines, 0))
  {
    var i := FindFirst(acc, title);
    TrimKeeps(lines);
    if i < |acc| {
      var s := Sub(title, AppendLines(acc[i].lines, lines), 0);
      AppendAtBullet(acc[i].lines, lines);
      SubsKeysUpdate(acc, i, s);
      SubsTagsUpdate(acc, i, s, SubTags(Sub(title, lines, 0)));
      assert SubKeys(s) == SubKeys(acc[i]) + SubKeys(Sub(title, lines, 0));
      Regroup(SubsKeys(acc[..i]), SubKeys(acc[i]), SubsKeys(acc[i + 1..]), SubKeys(Sub(title, lines, 0)));
    } else {
      SubsKeysCat(acc, [Sub(title, lines, 0)]);
      SubsKeysOne(Sub(title, lines, 0));
      SubsTagsCat(acc, [Sub(title, lines, 0)]);
      SubsTagsOne(Sub(title, lines, 0));
    }
  }

  lemma MergeInGood(acc: seq<Sub>, title: string, lines: Body)
    requires GoodSubs(acc) && StartsAtBullet(lines) && lines != [] && Plain(lines)
    ensures GoodSubs(MergeIn(acc, title, lines))
  {
    var i := FindFirst(acc, title);
    TrimKeeps(lines);
    if i < |acc| { AppendPlain(acc[i].lines, lines); }
  }

  lemma AppendPlain(target: Body, lines: Body)
    requires NoHead(target, IsRelease) && NoHead(target, IsCategory) && StartsAtBullet(Trim(target))
    requires StartsAtBullet(lines) && lines != [] && Plain(lines)
    ensures var out := AppendLines(target, lines);
            NoHead(out, IsRelease) && NoHead(out, IsCategory) && StartsAtBullet(Trim(out))
  {
    var existing := Trim(target);
    TrimPlain(target);
    TrimKeeps(lines);
    if existing != [] {
      var out := existing + Separator(existing, lines) + lines;
      assert Trimmed(out);
      TrimKeeps(out);
    }
  }

  lemma CompactPlain(ls: Body)
    requires NoHead(ls, IsRelease) && NoHead(ls, IsCategory)
    ensures Plain(Compact(ls))
  {
    TrimPlain(ls);
    CompactKeeps(ls);
    CompactLines(ls);
    InNoHead(Compact(ls), ls, IsRelease);
    InNoHead(Compact(ls), ls, IsCategory);
  }

  lemma CompactLines(ls: Body)
    ensures forall l <- Compact(ls) :: l in ls
  {
    var trimmed := Trim(ls);
    var pre, post := TrimParts(ls);
    forall l <- trimmed ensures l in ls { }
    FlatLines(Items(trimmed), trimmed);
  }

  lemma {:induction false} FlatLines(keys: seq<Body>, ls: Body)
    requires keys == Items(ls)
    ensures forall l <- Flat(keys) :: l in ls
  {
    forall i | 0 <= i < |keys| ensures forall l <- keys[i] :: l in ls { SegLines(ls, i); }
    FlatOnly(keys, ls);
  }

  lemma {:induction false} FlatOnly(segs: seq<Body>, ls: Body)
    requires forall i :: 0 <= i < |segs| ==> forall l <- segs[i] :: l in ls
    ensures forall l <- Flat(segs) :: l in ls
    decreases segs
  {
    if segs != [] { FlatOnly(segs[1..], ls); }
  }

  lemma {:induction false} MergeLast(init: seq<Sub>, s: Sub)
    ensures MergeSubs(init + [s])
         == if Compact(s.lines) == [] then MergeSubs(init) else MergeIn(MergeSubs(init), s.title, Compact(s.lines))
  {
    MoreInit(init, s);
  }

  /** Merging loses no item when every body begins at a bullet. */
  lemma {:induction false} MergeKeeps(subs: seq<Sub>)
    requires GoodSubs(subs)
    ensures SubsKeys(MergeSubs(subs)) == SubsKeys(subs) && GoodSubs(MergeSubs(subs))
    ensures SubsTags(MergeSubs(subs)) == SubsTags(subs)
    decreases subs
  {
    if subs != [] {
      var k := |subs| - 1;
      MergeKeeps(subs[..k]);
      MergeOneKeeps(subs[..k], MergeSubs(subs[..k]), subs[k]);
      MergeLast(subs[..k], subs[k]);
      InitAndLast(subs);
    }
  }

  lemma MergeOneKeeps(init: seq<Sub>, acc: seq<Sub>, s: Sub)
    requires GoodSubs(acc) && SubsKeys(acc) == SubsKeys(init) && Headless(s) && Bulleted(s)
    requires SubsTags(acc) == SubsTags(init)
    ensures var lines := Compact(s.lines);
            var more := if lines == [] then acc else MergeIn(acc, s.title, lines);
            && SubsKeys(more) == SubsKeys(init + [s]) && GoodSubs(more)
            && SubsTags(more) == SubsTags(init + [s])
  {
    var lines := Compact(s.lines);
    SubsKeysCat(init, [s]);
    SubsKeysOne(s);
    SubsTagsCat(init, [s]);
    SubsTagsOne(s);
    CompactKeeps(s.lines);
    CompactStart(s.lines);
    CompactPlain(s.lines);
    SameKeys(s, Sub(s.title, lines, 0));
    if lines == [] {
      NoItems(s);
    } else {
      MergeInKeys(acc, s.title, lines);
      MergeInGood(acc, s.title, lines);
    }
  }

  lemma SameKeys(s: Sub, t: Sub)
    requires Items(s.lines) == Items(t.lines)
    ensures SubKeys(s) == SubKeys(t) && (s.title == t.title ==> SubTags(s) == SubTags(t))
  {
  }

  lemma NoItems(s: Sub)
    requires Compact(s.lines) == []
    ensures SubKeys(s) == {} && SubTags(s) == {}
  {
    CompactKeeps(s.lines);
    assert Items([]) == [];
  }

  // ---------- A section ----------

  function Normalized(s: Section): Section {
    var subs := MergeSubs(s.subs);
    Section(s.heading, Trim(s.leading), if IsUnreleased(s) then Sort(subs, ByTitle()) else subs)
  }

  method NormalizeSection(s: Section) returns (t: Section)
    ensures t == Normalized(s)
  {
    var subs := MergeBodies(s.subs);
    if IsUnreleased(s) { subs := Sort(subs, ByTitle()); }
    t := Section(s.heading, Trim(s.leading), subs);
  }

  lemma SameMembers(a: seq<Sub>, b: seq<Sub>)
    requires multiset(a) == multiset(b)
    ensures SubsKeys(a) == SubsKeys(b) && SubsTags(a) == SubsTags(b) && (GoodSubs(a) ==> GoodSubs(b))
  {
    forall s ensures s in a <==> s in b { assert s in a <==> s in multiset(a); }
    forall j | 0 <= j < |b| && GoodSubs(a) ensures Headless(b[j]) && Bulleted(b[j]) { assert b[j] in a; }
  }

  lemma NormalizedKeeps(s: Section)
    requires GoodSection(s)
    ensures GoodSection(Normalized(s)) && SubsKeys(Normalized(s).subs) == SubsKeys(s.subs)
    ensures SubsTags(Normalized(s).subs) == SubsTags(s.subs)
  {
    MergeKeeps(s.subs);
    TrimPlain(s.leading);
    SortSorts(MergeSubs(s.subs), ByTitle());
    SameMembers(MergeSubs(s.subs), Sort(MergeSubs(s.subs), ByTitle()));
  }

  // ---------- Sorted sections ----------

  lemma SortedKeeps(ss: seq<Section>)
    ensures KeysOf(SortSections(ss), Any) == KeysOf(ss, Any)
    ensures KeysOf(SortSections(ss), IsReleased) == KeysOf(ss, IsReleased)
    ensures KeysOf(SortSections(ss), IsUnreleased) == KeysOf(ss, IsUnreleased)
    ensures GoodSections(ss) ==> GoodSections(SortSections(ss))
  {
    SortedMember(ss);
    if GoodSections(ss) {
      forall i | 0 <= i < |SortSections(ss)|
        ensures GoodSection(SortSections(ss)[i])
      { assert SortSections(ss)[i] in ss; }
    }
  }

  // ---------- The fixer ----------

  function NormalizedAll(ss: seq<Section>): seq<Section> {
    seq(|ss|, i requires 0 <= i < |ss| => Normalized(ss[i]))
  }

  method NormalizeAll(ss: seq<Section>) returns (ns: seq<Section>)
    ensures ns == NormalizedAll(ss)
  {
    ns := [];
    var i := 0;
    while i < |ss|
      invariant 0 <= i <= |ss| && ns == NormalizedAll(ss)[..i]
    {
      var n := NormalizeSection(ss[i]);
      ns := ns + [n];
      i := i + 1;
    }
  }

  /** The end of every run: sections normalised and sorted, the document written. */
  function Settle(doc: Doc): Doc {
    Doc(doc.prefix, SortSections(NormalizedAll(doc.sections)))
  }

  ghost predicate SameSections(a: seq<Section>, b: seq<Section>) {
    |a| == |b| && forall i :: 0 <= i < |a| ==> a[i].heading == b[i].heading && SubsKeys(a[i].subs) == SubsKeys(b[i].subs)
  }

  lemma SameKeysOf(a: seq<Section>, b: seq<Section>, which: Section -> bool)
    requires SameSections(a, b) && forall s: Section, t: Section :: s.heading == t.heading ==> which(s) == which(t)
    ensures KeysOf(a, which) == KeysOf(b, which)
  {
    forall k ensures k in KeysOf(a, which) <==> k in KeysOf(b, which) {
      KeyAtSection(a, which, k);
      KeyAtSection(b, which, k);
      if i :| 0 <= i < |a| && which(a[i]) && k in SubsKeys(a[i].subs) {
        assert which(b[i]) && k in SubsKeys(b[i].subs);
      }
      if i :| 0 <= i < |b| && which(b[i]) && k in SubsKeys(b[i].subs) {
        assert which(a[i]) && k in SubsKeys(a[i].subs);
      }
    }
  }

  ghost predicate SameKeySets(a: seq<Section>, b: seq<Section>) {
    && KeysOf(a, Any) == KeysOf(b, Any) && KeysOf(a, IsReleased) == KeysOf(b, IsReleased)
    && KeysOf(a, IsUnreleased) == KeysOf(b, IsUnreleased)
  }

  lemma AllKeysSame(a: seq<Section>, b: seq<Section>)
    requires SameSections(a, b)
    ensures SameKeySets(a, b)
  {
    SameKeysOf(a, b, Any);
    SameKeysOf(a, b, IsReleased);
    SameKeysOf(a, b, IsUnreleased);
  }

  lemma SettleKeeps(doc: Doc)
    requires GoodSections(doc.sections)
    ensures SameKeySets(Settle(doc).sections, doc.sections) && GoodSections(Settle(doc).sections)
  {
    var ns := NormalizedAll(doc.sections);
    forall i | 0 <= i < |ns| ensures GoodSection(ns[i]) && SubsKeys(ns[i].subs) == SubsKeys(doc.sections[i].subs) {
      assert GoodSection(doc.sections[i]);
      NormalizedKeeps(doc.sections[i]);
    }
    AllKeysSame(ns, doc.sections);
    SortedKeeps(ns);
  }

  lemma SettledWellformed(doc: Doc)
    requires AllWellformed(doc.sections)
    ensures AllWellformed(Settle(doc).sections)
  {
    var ns := NormalizedAll(doc.sections);
    forall i | 0 <= i < |ns| ensures Wellformed(ns[i]) {
      assert Wellformed(doc.sections[i]);
      NormalizedWellformed(doc.sections[i]);
    }
    SortedMember(ns);
    forall i | 0 <= i < |Settle(doc).sections| ensures Wellformed(Settle(doc).sections[i]) {
      assert Settle(doc).sections[i] in ns;
    }
  }

  lemma NormalizedWellformed(s: Section)
    requires Wellformed(s)
    ensures Wellformed(Normalized(s))
  {
    TrimPlain(s.leading);
    MergeHeadless(s.subs);
    var subs := MergeSubs(s.subs);
    Orderings();
    SortSorts(subs, ByTitle());
    forall j | 0 <= j < |Sort(subs, ByTitle())| ensures Headless(Sort(subs, ByTitle())[j]) {
      assert Sort(subs, ByTitle())[j] in multiset(subs);
    }
  }

  lemma {:induction false} MergeHeadless(subs: seq<Sub>)
    requires HeadlessSubs(subs)
    ensures HeadlessSubs(MergeSubs(subs))
    decreases subs
  {
    if subs != [] {
      var k := |subs| - 1;
      var acc, lines := MergeSubs(subs[..k]), Compact(subs[k].lines);
      MergeHeadless(subs[..k]);
      CompactPlain(subs[k].lines);
      var i := FindFirst(acc, subs[k].title);
      if i < |acc| { AppendHeadless(acc[i].lines, lines); }
    }
  }

  lemma {:induction false} TrimSubsKeys(subs: seq<Sub>)
    ensures SubsKeys(TrimSubs(subs)) == SubsKeys(subs) && SubsTags(TrimSubs(subs)) == SubsTags(subs)
    decreases subs
  {
    if subs != [] {
      var t := Sub(subs[0].title, Trim(subs[0].lines), 0);
      TrimSubsKeys(subs[1..]);
      ItemsOfTrim(subs[0].lines);
      SubsKeysCat([subs[0]], subs[1..]);
      SubsKeysCat([t], TrimSubs(subs[1..]));
      SubsKeysOne(subs[0]);
      SubsKeysOne(t);
      SubsTagsCat([subs[0]], subs[1..]);
      SubsTagsCat([t], TrimSubs(subs[1..]));
      SubsTagsOne(subs[0]);
      SubsTagsOne(t);
      SameKeys(subs[0], t);
      HeadAndTail(subs);
      if t.lines == [] { assert Items([]) == []; }
    }
  }

  lemma TrimDocKeys(doc: Doc)
    ensures SameKeySets(TrimDoc(doc).sections, doc.sections)
  {
    forall i | 0 <= i < |doc.sections|
      ensures SubsKeys(TrimDoc(doc).sections[i].subs) == SubsKeys(doc.sections[i].subs)
    { TrimSubsKeys(doc.sections[i].subs); }
    AllKeysSame(TrimDoc(doc).sections, doc.sections);
  }

  lemma WellformedTrims(doc: Doc)
    requires NoHead(doc.prefix, IsRelease) && AllWellformed(doc.sections)
    ensures Clean(TrimDoc(doc))
  {
    var pre, post := TrimParts(doc.prefix);
    forall i | 0 <= i < |Trim(doc.prefix)| ensures !Trim(doc.prefix)[i].Release? {
      assert Trim(doc.prefix)[i] == doc.prefix[|pre| + i];
    }
    forall i | 0 <= i < |doc.sections| ensures CleanSection(TrimSection(doc.sections[i])) {
      assert Wellformed(doc.sections[i]);
      TrimPlain(doc.sections[i].leading);
      TrimSubsClean(doc.sections[i].subs);
    }
  }

  /** What is written of a well-formed document reads back with the same keys. */
  lemma WrittenKeys(doc: Doc)
    requires NoHead(doc.prefix, IsRelease) && AllWellformed(doc.sections)
    ensures TrimDoc(Parse(Render(doc))) == TrimDoc(doc)
    ensures SameKeySets(Parse(Render(doc)).sections, doc.sections)
  {
    WellformedTrims(doc);
    RenderTrim(doc);
    ParseRender(TrimDoc(doc));
    TrimDocKeys(doc);
    TrimDocKeys(Parse(Render(doc)));
  }

  lemma ParsedWellformed(ls: Body)
    ensures NoHead(Parse(ls).prefix, IsRelease) && AllWellformed(Parse(ls).sections)
  {
    var c := CutAt(ls, IsRelease, 1);
    CutParts(ls, IsRelease, 1);
    forall i | 0 <= i < |c.groups| ensures Wellformed(SectionOf(c.groups[i])) { GroupWellformed(c.groups[i]); }
  }

  lemma GroupWellformed(g: Group)
    requires g.head.Release? && NoHead(g.body, IsRelease)
    ensures Wellformed(SectionOf(g))
  {
    var c := CutAt(g.body, IsCategory, g.first);
    CutParts(g.body, IsCategory, g.first);
    InNoHead(c.lead, g.body, IsRelease);
    forall j | 0 <= j < |c.groups| ensures Headless(SubOf(c.groups[j])) {
      InNoHead(c.groups[j].body, g.body, IsRelease);
    }
  }

  /** Every category body begins at a bullet, or is blank. */
  predicate AllBulleted(ss: seq<Section>) {
    forall i :: 0 <= i < |ss| ==> forall j :: 0 <= j < |ss[i].subs| ==> Bulleted(ss[i].subs[j])
  }

  lemma DroppedPromotable(ss: seq<Section>, ds: seq<Section>, starts: set<nat>)
    requires |ss| == |ds| && forall i :: 0 <= i < |ss| ==> ss[i].heading == ds[i].heading
    requires forall i :: 0 <= i < |ss| && IsReleased(ss[i]) ==> ss[i] == ds[i]
    ensures Promotable(ds, starts) == Promotable(ss, starts)
  {
    forall k ensures k in Promotable(ds, starts) <==> k in Promotable(ss, starts) {
      if k in Promotable(ds, starts) {
        var s :| s in ds && IsReleased(s) && k in ChosenFrom(s.subs, starts);
        var i :| 0 <= i < |ds| && ds[i] == s;
        assert ss[i] in ss;
      }
      if k in Promotable(ss, starts) {
        var s :| s in ss && IsReleased(s) && k in ChosenFrom(s.subs, starts);
        var i :| 0 <= i < |ss| && ss[i] == s;
        assert ds[i] in ds;
      }
    }
  }

  // ---------- Which section holds what ----------

  datatype Holding = Holding(heading: Line, keys: set<Body>)

  function Holdings(ss: seq<Section>): seq<Holding> {
    seq(|ss|, i requires 0 <= i < |ss| => Holding(ss[i].heading, SubsKeys(ss[i].subs)))
  }

  /** What each section is to hold after a run: a release its items but those to be promoted, the
      first Unreleased section its items that no release had and the promoted ones. */
  function Owed(ss: seq<Section>, starts: set<nat>): seq<Holding> {
    var u, promoted := FirstUnreleased(ss), Promotable(ss, starts);
    var own := seq(|ss|, i requires 0 <= i < |ss| => Holding(ss[i].heading,
      if i == u then (SubsKeys(ss[i].subs) - KeysOf(ss, IsReleased)) + promoted
      else if IsUnreleased(ss[i]) then SubsKeys(ss[i].subs)
      else LeftIn(ss[i].subs, starts)));
    if u == |ss| && promoted != {} then [Holding(NEW_UNRELEASED.heading, promoted)] + own else own
  }

  lemma OwedAt(ss: seq<Section>, out: seq<Section>, starts: set<nat>, i: nat)
    requires Thinned(ss, out, starts) && i < |ss|
    ensures out[i].heading == ss[i].heading
    ensures SubsKeys(out[i].subs) == if IsUnreleased(ss[i]) then SubsKeys(ss[i].subs) else LeftIn(ss[i].subs, starts)
  {
    if IsReleased(ss[i]) { StrippedSubsLeft(ss[i].subs, out[i].subs, starts); }
  }

  /** Dropping and promoting leave every section with what it is owed. */
  lemma {:induction false} OwedIsHeld(ss: seq<Section>, ds: seq<Section>, ps: seq<Section>, starts: set<nat>)
    requires Dropped(ss, ds) && Moved(ds, ps, starts)
    ensures Holdings(ps) == Owed(ss, starts)
  {
    SameFirst(ss, ds);
    DroppedPromotable(ss, ds, starts);
    if FirstUnreleased(ss) < |ss| {
      OwedInPlace(ss, ds, ps, starts);
    } else {
      assert ds == ss;
      NoneUnreleased(ss);
      if Promotable(ss, starts) == {} { NothingLeaves(ss, starts); } else { OwedBehind(ss, ps, starts); }
    }
  }

  lemma {:induction false} OwedInPlace(ss: seq<Section>, ds: seq<Section>, ps: seq<Section>, starts: set<nat>)
    requires Dropped(ss, ds) && Moved(ds, ps, starts) && FirstUnreleased(ds) == FirstUnreleased(ss) < |ss|
    requires Promotable(ds, starts) == Promotable(ss, starts)
    ensures Holdings(ps) == Owed(ss, starts)
  {
    var u := FirstUnreleased(ss);
    forall i | 0 <= i < |ss| ensures Holdings(ps)[i] == Owed(ss, starts)[i] {
      if i != u { OwedAt(ds, ps[u := ds[u]], starts, i); }
    }
  }

  lemma {:induction false} OwedBehind(ss: seq<Section>, ps: seq<Section>, starts: set<nat>)
    requires Moved(ss, ps, starts) && Promotable(ss, starts) != {} && FirstUnreleased(ss) == |ss|
    requires forall i :: 0 <= i < |ss| ==> IsReleased(ss[i])
    ensures Holdings(ps) == Owed(ss, starts)
  {
    forall i | 1 <= i < |ps| ensures Holdings(ps)[i] == Owed(ss, starts)[i] { OwedAt(ss, ps[1..], starts, i - 1); }
  }

  lemma {:induction false} NoneUnreleased(ss: seq<Section>)
    requires FirstUnreleased(ss) == |ss|
    ensures forall i :: 0 <= i < |ss| ==> IsReleased(ss[i])
    decreases ss
  {
    if ss != [] { NoneUnreleased(ss[1..]); }
  }

  lemma NothingLeaves(ss: seq<Section>, starts: set<nat>)
    requires Promotable(ss, starts) == {} && forall i :: 0 <= i < |ss| ==> IsReleased(ss[i])
    ensures forall i :: 0 <= i < |ss| ==> LeftIn(ss[i].subs, starts) == SubsKeys(ss[i].subs)
  {
    forall i | 0 <= i < |ss| ensures LeftIn(ss[i].subs, starts) == SubsKeys(ss[i].subs) {
      assert ss[i] in ss;
      forall k <- ChosenFrom(ss[i].subs, starts) ensures k in Promotable(ss, starts) { }
      forall s <- ss[i].subs ensures Unchosen(ItemsOf(s.lines, s.first), starts) == Items(s.lines) {
        var j :| 0 <= j < |ss[i].subs| && ss[i].subs[j] == s;
        NoneOf(ss[i].subs, starts, j);
        AllUnchosen(Segs(s.lines).segs, s.first + |Segs(s.lines).lead|, starts);
      }
    }
  }

  lemma CancelOne(m: multiset<Section>, n: multiset<Section>, s: Section)
    requires m + multiset{s} == n + multiset{s}
    ensures m == n
  {
    forall t ensures m[t] == n[t] { assert (m + multiset{s})[t] == (n + multiset{s})[t]; }
  }

  lemma {:induction false} HoldingsCat(a: seq<Section>, b: seq<Section>)
    ensures Holdings(a + b) == Holdings(a) + Holdings(b)
  {
  }

  lemma {:induction false} HoldingsWithout(a: seq<Section>, s: Section, b: seq<Section>)
    ensures multiset(Holdings(a + [s] + b)) == multiset(Holdings([s])) + multiset(Holdings(a + b))
    ensures multiset(a + [s] + b) == multiset(a + b) + multiset{s}
  {
    HoldingsCat(a + [s], b);
    HoldingsCat(a, [s]);
    HoldingsCat(a, b);
  }

  lemma {:induction false} HoldingsPermute(a: seq<Section>, b: seq<Section>)
    requires multiset(a) == multiset(b)
    ensures multiset(Holdings(a)) == multiset(Holdings(b))
    decreases a
  {
    if a == [] {
      assert |multiset(b)| == 0;
    } else {
      assert a[0] in multiset(b);
      var i :| 0 <= i < |b| && b[i] == a[0];
      assert a == [] + [a[0]] + a[1..] && b == b[..i] + [b[i]] + b[i + 1..];
      HoldingsWithout([], a[0], a[1..]);
      HoldingsWithout(b[..i], b[i], b[i + 1..]);
      assert [] + a[1..] == a[1..];
      CancelOne(multiset(a[1..]), multiset(b[..i] + b[i + 1..]), a[0]);
      HoldingsPermute(a[1..], b[..i] + b[i + 1..]);
    }
  }

  lemma SettleHolds(doc: Doc)
    requires GoodSections(doc.sections)
    ensures multiset(Holdings(Settle(doc).sections)) == multiset(Holdings(doc.sections))
  {
    var ns := NormalizedAll(doc.sections);
    forall i | 0 <= i < |ns| ensures Holdings(ns)[i] == Holdings(doc.sections)[i] {
      assert GoodSection(doc.sections[i]);
      NormalizedKeeps(doc.sections[i]);
    }
    assert Holdings(ns) == Holdings(doc.sections);
    SortedSame(ns);
    HoldingsPermute(Settle(doc).sections, ns);
  }

  lemma TrimmedHolds(a: Doc, b: Doc)
    requires TrimDoc(a) == TrimDoc(b)
    ensures Holdings(a.sections) == Holdings(b.sections)
  {
    assert |a.sections| == |TrimDoc(a).sections| == |b.sections|;
    forall i | 0 <= i < |a.sections| ensures Holdings(a.sections)[i] == Holdings(b.sections)[i] {
      TrimSubsKeys(a.sections[i].subs);
      TrimSubsKeys(b.sections[i].subs);
      assert TrimDoc(a).sections[i] == TrimDoc(b).sections[i];
    }
  }

  /** What a run promises when every body begins at a bullet: no item is lost or invented, every
      promoted item is in Unreleased, and each section holds what it is owed. */
  ghost predicate Conserved(ls: Body, starts: set<nat>, out: Body) {
    var before, after := Parse(ls).sections, Parse(out).sections;
    && multiset(Holdings(after)) == multiset(Owed(before, starts))
    && KeysOf(after, Any) == KeysOf(before, Any)
    && Promotable(before, starts) <= KeysOf(after, IsUnreleased)
  }

  lemma BulletedIsGood(ss: seq<Section>)
    requires AllWellformed(ss) && AllBulleted(ss)
    ensures GoodSections(ss)
  {
    forall i | 0 <= i < |ss| ensures GoodSection(ss[i]) { assert Wellformed(ss[i]); }
  }

  lemma GoodIsWellformed(ss: seq<Section>)
    requires GoodSections(ss)
    ensures AllWellformed(ss)
  {
    forall i | 0 <= i < |ss| ensures Wellformed(ss[i]) { assert GoodSection(ss[i]); }
  }

  lemma ConservedRun(ls: Body, ds: seq<Section>, ps: seq<Section>, starts: set<nat>)
    requires Dropped(Parse(ls).sections, ds) && GoodSections(ds) && Promoted(ds, ps, starts)
    ensures Conserved(ls, starts, Render(Settle(Doc(Parse(ls).prefix, ps))))
  {
    var doc := Doc(Parse(ls).prefix, ps);
    DroppedPromotable(Parse(ls).sections, ds, starts);
    SettleKeeps(doc);
    GoodIsWellformed(Settle(doc).sections);
    ParsedWellformed(ls);
    WrittenKeys(Settle(doc));
    OwedIsHeld(Parse(ls).sections, ds, ps, starts);
    SettleHolds(doc);
    TrimmedHolds(Parse(Render(Settle(doc))), Settle(doc));
  }

  // ---------- The order that is written ----------

  /** Where the written sections come from; sections that tie stay in order, and each keeps its
      items, each under its category, if every body begins at a bullet. */
  ghost predicate WrittenFrom(at: seq<nat>, ps: seq<Section>, after: seq<Section>) {
    && |at| == |after| == |ps|
    && (forall i :: 0 <= i < |at| ==> at[i] < |ps| && after[i].heading == ps[at[i]].heading)
    && (forall i, j :: 0 <= i < j < |at| ==> at[i] != at[j] && (Ties(after[i], after[j]) ==> at[i] < at[j]))
    && (GoodSections(ps) ==> forall i :: 0 <= i < |at| ==> SubsTags(after[i].subs) == SubsTags(ps[at[i]].subs))
  }

  /** Unreleased sections first, then the releases, latest first; sections that tie stay in order,
      and the categories of an Unreleased section have theirs. */
  ghost predicate WrittenInOrder(ps: seq<Section>, after: seq<Section>) {
    && LatestFirst(after) && (exists at: seq<nat> :: WrittenFrom(at, ps, after))
    && forall i :: 0 <= i < |after| && IsUnreleased(after[i]) ==> InTurn(after[i].subs)
  }

  /** A section as it was normalised, as it is sorted, and as it is read back. */
  lemma WrittenSection(s: Section, t: Section)
    requires Wellformed(s) && TrimSection(t) == TrimSection(Normalized(s))
    ensures t.heading == s.heading && (IsUnreleased(t) ==> InTurn(t.subs))
    ensures GoodSection(s) ==> SubsTags(t.subs) == SubsTags(s.subs)
  {
    var n := Normalized(s);
    TrimSubsKeys(n.subs);
    TrimSubsKeys(t.subs);
    if GoodSection(s) { NormalizedKeeps(s); }
    if IsUnreleased(t) {
      SortedInTurn(MergeSubs(s.subs));
      InTurnTrims(n.subs, t.subs);
    }
  }

  lemma LatestFirstHeadings(a: seq<Section>, b: seq<Section>)
    requires LatestFirst(a) && |a| == |b| && forall i :: 0 <= i < |a| ==> a[i].heading == b[i].heading
    ensures LatestFirst(b)
  {
    forall i, j | 0 <= i < j < |b| ensures InPlace(b[i], b[j]) {
      assert InPlace(a[i], a[j]);
      SamePlace(a[i], a[j], b[i], b[j]);
    }
  }

  lemma SamePlace(a: Section, b: Section, c: Section, d: Section)
    requires a.heading == c.heading && b.heading == d.heading
    ensures (InPlace(a, b) <==> InPlace(c, d)) && (Ties(a, b) <==> Ties(c, d))
  {
    forall k: nat ensures Part(a, k) == Part(c, k) && Part(b, k) == Part(d, k) { }
    forall k: nat ensures NewerAt(b, a, k) <==> NewerAt(d, c, k) { }
  }

  lemma SettledFrom(ps: seq<Section>, after: seq<Section>, at: seq<nat>)
    requires AllWellformed(ps) && Rearranged(at, NormalizedAll(ps), SortSections(NormalizedAll(ps)))
    requires |after| == |ps|
    requires forall i :: 0 <= i < |ps| ==>
               i < |SortSections(NormalizedAll(ps))| &&
               TrimSection(after[i]) == TrimSection(SortSections(NormalizedAll(ps))[i])
    ensures WrittenFrom(at, ps, after)
    ensures forall i :: 0 <= i < |after| && IsUnreleased(after[i]) ==> InTurn(after[i].subs)
  {
    var ns := NormalizedAll(ps);
    var sorted := SortSections(ns);
    forall i | 0 <= i < |at|
      ensures after[i].heading == ps[at[i]].heading && (IsUnreleased(after[i]) ==> InTurn(after[i].subs))
      ensures GoodSections(ps) ==> SubsTags(after[i].subs) == SubsTags(ps[at[i]].subs)
    {
      assert sorted[i] == ns[at[i]] == Normalized(ps[at[i]]);
      assert Wellformed(ps[at[i]]);
      WrittenSection(ps[at[i]], after[i]);
    }
    forall i, j | 0 <= i < j < |at| && Ties(after[i], after[j]) ensures at[i] < at[j] {
      SamePlace(after[i], after[j], sorted[i], sorted[j]);
    }
  }

  lemma OrderWritten(prefix: Body, ps: seq<Section>)
    requires NoHead(prefix, IsRelease) && AllWellformed(ps)
    ensures WrittenInOrder(ps, Parse(Render(Settle(Doc(prefix, ps)))).sections)
  {
    var doc := Doc(prefix, ps);
    var sorted, after := SortSections(NormalizedAll(ps)), Parse(Render(Settle(doc))).sections;
    SettledWellformed(doc);
    WrittenKeys(Settle(doc));
    var at := SortedRearranges(NormalizedAll(ps));
    assert |after| == |TrimDoc(Parse(Render(Settle(doc)))).sections| == |sorted| == |ps|;
    forall i | 0 <= i < |ps|
      ensures TrimSection(after[i]) == TrimSection(sorted[i]) && after[i].heading == sorted[i].heading
    { assert TrimDoc(Parse(Render(Settle(doc)))).sections[i] == TrimDoc(Settle(doc)).sections[i]; }
    SettledFrom(ps, after, at);
    SortedLatestFirst(NormalizedAll(ps));
    LatestFirstHeadings(sorted, after);
  }

  lemma WellformedHeads(s: Section)
    requires Wellformed(s)
    ensures Heads(s)
  {
    TrimPlain(s.leading);
    forall j | 0 <= j < |s.subs| ensures NoHeading(Trim(s.subs[j].lines)) {
      assert Headless(s.subs[j]);
      TrimPlain(s.subs[j].lines);
    }
  }

  lemma LayoutWritten(prefix: Body, ps: seq<Section>)
    requires AllWellformed(ps)
    ensures LaidOut(Render(Settle(Doc(prefix, ps))), Trim(prefix))
  {
    var doc := Settle(Doc(prefix, ps));
    SettledWellformed(Doc(prefix, ps));
    forall i | 0 <= i < |doc.sections| ensures Heads(doc.sections[i]) { WellformedHeads(doc.sections[i]); }
    RenderLaid(doc);
  }

  /** `ds` is the document after dropping, `ps` after promoting. */
  method FixChangelogContent(ls: Body, starts: set<nat>) returns (out: Body, ghost ds: seq<Section>,
                             ghost ps: seq<Section>)
    ensures DropResult(Parse(ls).sections, ds) && Promoted(ds, ps, starts)
    ensures out == Render(Settle(Doc(Parse(ls).prefix, ps)))
    ensures WrittenInOrder(ps, Parse(out).sections) && LaidOut(out, Trim(Parse(ls).prefix))
    ensures AllBulleted(Parse(ls).sections) ==> Conserved(ls, starts, out)
  {
    var doc := ParseChangelog(ls);
    ParsedWellformed(ls);
    var dropped := DropUnreleasedDuplicates(doc.sections);
    var promoted := Promote(dropped, starts);
    var ns := NormalizeAll(promoted);
    out := Render(Doc(doc.prefix, SortSections(ns)));
    ds, ps := dropped, promoted;
    OrderWritten(doc.prefix, ps);
    LayoutWritten(doc.prefix, ps);
    if AllBulleted(doc.sections) {
      BulletedIsGood(doc.sections);
      ConservedRun(ls, ds, ps, starts);
    }
  }

  /** Anything that dropping released duplicates may leave. */
  ghost predicate DropResult(ss: seq<Section>, ds: seq<Section>) {
    && Dropped(ss, ds) && (NoneReleased(ss) ==> ds == ss)
    && AllWellformed(ds) && (GoodSections(ss) ==> GoodSections(ds))
  }

  lemma {:induction false} NoneChosen(items: seq<Item>)
    ensures Chosen(items, {}) == []
    decreases items
  {
    if items != [] { NoneChosen(items[1..]); }
  }

  lemma NothingPromotable(ss: seq<Section>)
    ensures Promotable(ss, {}) == {}
  {
    forall k ensures k !in Promotable(ss, {}) {
      if s :| s in ss && IsReleased(s) && k in ChosenFrom(s.subs, {}) {
        var t :| t in s.subs && k in ChosenKeys(t, {});
        NoneChosen(ItemsOf(t.lines, t.first));
      }
    }
  }
}

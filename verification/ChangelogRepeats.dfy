/** Running the changelog fixer of scripts/fix-changelogs.ts twice. A second run changes nothing
    unless a section repeats a category heading; what exactly makes it differ then. */
module ChangelogRepeats {
  import opened Common
  import opened ChangelogItems
  import opened ChangelogText
  import opened ChangelogMerge
  import opened ChangelogFix
  import opened ChangelogPromote
  import opened ChangelogOrder
  import opened ChangelogSettle
  import opened StableSort

  // ---------- Bodies that compacting leaves as they are ----------

  /** A blank line right before a bullet. */
  predicate Loose(ls: Body) {
    |ls| >= 2 && ((ls[0].Blank? && ls[1].Bullet?) || Loose(ls[1..]))
  }

  predicate EndsAtBullet(ls: Body) {
    ls == [] || ls[|ls| - 1].Bullet?
  }

  predicate Whole(ls: Body) {
    ls != [] && Trimmed(ls) && Compact(ls) == ls
  }

  lemma {:induction false} LooseCat(a: Body, b: Body)
    requires a != [] && b != []
    ensures Loose(a + b) <==> Loose(a) || Loose(b) || (a[|a| - 1].Blank? && b[0].Bullet?)
    decreases a
  {
    assert (a + b)[0] == a[0];
    if |a| == 1 {
      assert (a + b)[1..] == b;
    } else {
      CatTail(a, b);
      LooseCat(a[1..], b);
    }
  }

  lemma {:induction false} OneBullet(ls: Body)
    requires ls != [] && NoBullet(ls[1..])
    ensures !Loose(ls)
    decreases ls
  {
    if |ls| >= 2 {
      assert ls[1] == ls[1..][0];
      assert ls[1..][1..] == ls[2..];
      forall i | 0 <= i < |ls[2..]| ensures !ls[2..][i].Bullet? { assert ls[2..][i] == ls[1..][i + 1]; }
      OneBullet(ls[1..]);
    }
  }

  lemma {:induction false} SegTrims(s: Body)
    requires IsSeg(s)
    ensures |Trim(s)| <= |s| && Solid(Trim(s)) == Solid(s)
    ensures Trim(s) == s <==> !s[|s| - 1].Blank?
  {
    var pre, post := TrimParts(s);
    SolidCat(pre + Trim(s), post);
    SolidCat(pre, Trim(s));
    SolidBlank(pre);
    SolidBlank(post);
    assert [] + Solid(Trim(s)) == Solid(Trim(s)) && Solid(Trim(s)) + [] == Solid(Trim(s));
    if !s[|s| - 1].Blank? { TrimKeeps(s); }
  }

  lemma {:induction false} SolidBlank(ls: Body)
    requires AllBlank(ls)
    ensures Solid(ls) == []
    decreases ls
  {
    if ls != [] { SolidBlank(ls[1..]); }
  }

  /** Cutting items to their keys takes nothing but blank lines, and only before bullets. */
  lemma {:induction false} FlatShrinks(segs: seq<Body>)
    requires AllSegs(segs)
    ensures |Flat(TrimAll(segs))| <= |Flat(segs)| && Solid(Flat(TrimAll(segs))) == Solid(Flat(segs))
    decreases segs
  {
    if segs != [] {
      FlatShrinks(segs[1..]);
      SegTrims(segs[0]);
      assert TrimAll(segs)[1..] == TrimAll(segs[1..]);
      SolidCat(segs[0], Flat(segs[1..]));
      SolidCat(Trim(segs[0]), Flat(TrimAll(segs[1..])));
    }
  }

  lemma {:induction false} FlatLoose(segs: seq<Body>)
    requires segs != [] && AllSegs(segs) && Trimmed(Flat(segs))
    ensures Flat(TrimAll(segs)) == Flat(segs) <==> !Loose(Flat(segs))
    decreases segs
  {
    var s, rest := segs[0], Flat(segs[1..]);
    assert TrimAll(segs)[1..] == TrimAll(segs[1..]);
    SegTrims(s);
    OneBullet(s);
    if segs[1..] == [] {
      assert s + rest == s && Trim(s) + Flat(TrimAll(segs[1..])) == Trim(s);
    } else {
      SegsOfFlat(segs[1..]);
      assert rest != [] by { assert IsSeg(segs[1]) && segs[1] == segs[1..][0]; }
      LooseCat(s, rest);
      FlatShrinks(segs[1..]);
      assert (s + rest)[|s + rest| - 1] == rest[|rest| - 1];
      FlatLoose(segs[1..]);
      SameParts(Trim(s), Flat(TrimAll(segs[1..])), s, rest);
    }
  }

  /** Two pieces, neither grown, make up the same whole only if both are the same. */
  lemma SameParts(a: Body, b: Body, c: Body, d: Body)
    requires |a| <= |c| && |b| <= |d|
    ensures a + b == c + d <==> a == c && b == d
  {
    if a + b == c + d {
      assert |a| == |c|;
      assert a == (a + b)[..|a|] && c == (c + d)[..|c|] && b == (a + b)[|a|..] && d == (c + d)[|c|..];
    }
  }

  /** Compacting has something to do if and only if the body begins at a bullet and a blank line
      stands before another one. */
  lemma {:induction false} WholeIff(ls: Body)
    requires ls != [] && Trimmed(ls)
    ensures Whole(ls) <==> !ls[0].Bullet? || !Loose(ls)
  {
    TrimKeeps(ls);
    SegsFlat(ls);
    SegsAreSegs(ls);
    var segs := Segs(ls).segs;
    if ls[0].Bullet? {
      assert [] + Flat(segs) == Flat(segs);
      FlatShrinks(segs);
      FlatLoose(segs);
    } else if Items(ls) != [] {
      ItemsAreKeys(ls);
      FlatItemsTrimmed(ls);
      SegsOfFlat(Items(ls));
      assert Solid(ls)[0] == ls[0] && Solid(Flat(Items(ls)))[0] == Flat(Items(ls))[0];
    }
  }

  // ---------- Bodies of one title joined ----------

  /** The bodies under a title that are not blank, compacted. */
  function Bodies(subs: seq<Sub>, title: string): seq<Body> {
    if subs == [] then []
    else
      var s := subs[|subs| - 1];
      Bodies(subs[..|subs| - 1], title) + (if Under(s, title) then [Compact(s.lines)] else [])
  }

  predicate Under(s: Sub, title: string) {
    s.title == title && Compact(s.lines) != []
  }

  function JoinAll(bs: seq<Body>): Body {
    if bs == [] then [] else AppendLines(JoinAll(bs[..|bs| - 1]), bs[|bs| - 1])
  }

  predicate AllWhole(bs: seq<Body>) {
    forall i :: 0 <= i < |bs| ==> Whole(bs[i])
  }

  /** What may follow a body: items if it ends in a bullet line, since a blank line is put after
      anything else; a body with opening prose if it has no blank line before a bullet. */
  predicate Link(b: Body, next: Body) {
    if StartsAtBullet(next) then EndsAtBullet(b) else !Loose(next)
  }

  predicate Links(bs: seq<Body>) {
    forall i :: 0 < i < |bs| ==> Link(bs[i - 1], bs[i])
  }

  predicate Tight(bs: seq<Body>) {
    bs != [] && StartsAtBullet(bs[0]) ==> Links(bs)
  }

  lemma {:induction false} BodiesLast(init: seq<Sub>, s: Sub, title: string)
    ensures Bodies(init + [s], title) == Bodies(init, title) + if Under(s, title) then [Compact(s.lines)] else []
  {
    MoreInit(init, s);
  }

  lemma {:induction false} BodiesWhole(subs: seq<Sub>, title: string)
    ensures AllWhole(Bodies(subs, title))
    decreases subs
  {
    if subs != [] {
      BodiesWhole(subs[..|subs| - 1], title);
      CompactKeeps(subs[|subs| - 1].lines);
    }
  }

  lemma {:induction false} BodiesMember(subs: seq<Sub>, title: string, b: Body)
    ensures b in Bodies(subs, title) <==> exists i :: 0 <= i < |subs| && Under(subs[i], title) && Compact(subs[i].lines) == b
    decreases subs
  {
    if subs != [] {
      var init, s := subs[..|subs| - 1], subs[|subs| - 1];
      BodiesMember(init, title, b);
      InitAndLast(subs);
      BodiesMemberLast(init, s, title, b);
    }
  }

  lemma {:induction false} BodiesMemberLast(init: seq<Sub>, s: Sub, title: string, b: Body)
    requires b in Bodies(init, title) <==> exists i :: 0 <= i < |init| && Under(init[i], title) && Compact(init[i].lines) == b
    ensures b in Bodies(init + [s], title)
       <==> exists i :: 0 <= i < |init + [s]| && Under((init + [s])[i], title) && Compact((init + [s])[i].lines) == b
  {
    var subs := init + [s];
    BodiesLast(init, s, title);
    if b in Bodies(init, title) {
      var i :| 0 <= i < |init| && Under(init[i], title) && Compact(init[i].lines) == b;
      assert subs[i] == init[i];
    } else if b in Bodies(subs, title) {
      assert subs[|init|] == s;
    }
    if i :| 0 <= i < |subs| && Under(subs[i], title) && Compact(subs[i].lines) == b {
      if i < |init| { assert subs[i] == init[i]; }
    }
  }

  lemma {:induction false} JoinStep(joined: Body, b: Body)
    requires joined != [] && Trimmed(joined) && b != [] && Trimmed(b)
    ensures var out := AppendLines(joined, b);
            && out != [] && Trimmed(out) && out[0] == joined[0] && out[|out| - 1] == b[|b| - 1]
            && (Loose(out) <==> Loose(joined) || Loose(b) || (b[0].Bullet? && !joined[|joined| - 1].Bullet?))
  {
    TrimKeeps(joined);
    TrimKeeps(b);
    var sep := Separator(joined, b);
    if sep == [] {
      assert joined + sep == joined;
    } else {
      LooseCat(joined, sep);
    }
    LooseCat(joined + sep, b);
  }

  /** What is known of bodies joined. */
  predicate JoinedAs(bs: seq<Body>, out: Body) {
    && bs != [] && bs[0] != [] && bs[|bs| - 1] != [] && out != [] && Trimmed(out)
    && out[0] == bs[0][0] && out[|out| - 1] == bs[|bs| - 1][|bs[|bs| - 1]| - 1]
    && (StartsAtBullet(bs[0]) ==> (Loose(out) <==> !Links(bs)))
  }

  lemma {:induction false} JoinedIs(bs: seq<Body>)
    requires bs != [] && AllWhole(bs)
    ensures JoinedAs(bs, JoinAll(bs))
    decreases bs
  {
    var init, b := bs[..|bs| - 1], bs[|bs| - 1];
    assert Whole(b);
    if |bs| == 1 {
      JoinOne(bs);
      WholeIff(b);
    } else {
      JoinedIs(init);
      InitAndLast(bs);
      JoinedLast(init, JoinAll(init), b);
    }
  }

  lemma JoinedLast(init: seq<Body>, out: Body, b: Body)
    requires JoinedAs(init, out) && Whole(b)
    ensures JoinedAs(init + [b], AppendLines(out, b))
  {
    var joined := AppendLines(out, b);
    JoinStep(out, b);
    LastLinks(init, out, b, joined);
    assert (init + [b])[0] == init[0] && (init + [b])[|init|] == b;
  }

  lemma {:induction false} LastLinks(init: seq<Body>, out: Body, b: Body, joined: Body)
    requires JoinedAs(init, out) && Whole(b)
    requires Loose(joined) <==> Loose(out) || Loose(b) || (b[0].Bullet? && !out[|out| - 1].Bullet?)
    ensures StartsAtBullet(init[0]) ==> (Loose(joined) <==> !Links(init + [b]))
  {
    WholeIff(b);
    MoreInit(init, b);
    LinksLast(init + [b]);
  }

  lemma {:induction false} JoinOne(bs: seq<Body>)
    requires |bs| == 1 && Whole(bs[0])
    ensures JoinAll(bs) == bs[0]
  {
    TrimKeeps(bs[0]);
    assert JoinAll(bs[..0]) == [];
  }

  lemma LinksLast(bs: seq<Body>)
    requires |bs| >= 2
    ensures var k := |bs| - 1;
            Links(bs) <==> Links(bs[..k]) && Link(bs[k - 1], bs[k])
  {
    var k := |bs| - 1;
    if Links(bs) {
      forall i | 0 < i < k ensures Link(bs[..k][i - 1], bs[..k][i]) { assert Link(bs[i - 1], bs[i]); }
    }
    if Links(bs[..k]) && Link(bs[k - 1], bs[k]) {
      forall i | 0 < i < |bs| ensures Link(bs[i - 1], bs[i]) {
        if i < k { assert Link(bs[..k][i - 1], bs[..k][i]); }
      }
    }
  }

  /** Bodies join to one that compacting leaves alone if and only if they follow one another
      tightly. */
  lemma {:induction false} JoinIsWholeIff(bs: seq<Body>)
    requires bs != [] && AllWhole(bs)
    ensures Whole(JoinAll(bs)) <==> Tight(bs)
  {
    JoinedIs(bs);
    WholeIff(JoinAll(bs));
    assert Whole(bs[0]);
  }

  lemma {:induction false} FlatCat(a: seq<Body>, b: seq<Body>)
    ensures Flat(a + b) == Flat(a) + Flat(b)
    decreases a
  {
    if a == [] {
      assert a + b == b;
    } else {
      CatTail(a, b);
      FlatCat(a[1..], b);
    }
  }

  lemma {:induction false} SolidCat(a: Body, b: Body)
    ensures Solid(a + b) == Solid(a) + Solid(b)
    decreases a
  {
    if a == [] {
      assert a + b == b;
    } else {
      CatTail(a, b);
      SolidCat(a[1..], b);
    }
  }

  // ---------- Items under one title ----------

  function AllItems(bs: seq<Body>): seq<Body> {
    if bs == [] then [] else AllItems(bs[..|bs| - 1]) + Items(bs[|bs| - 1])
  }

  /** No body that opens with prose stands behind one with items. */
  predicate ProseFirst(bs: seq<Body>) {
    forall i, j :: 0 <= i < j < |bs| && !StartsAtBullet(bs[j]) ==> Items(bs[i]) == []
  }

  /** The lines of some items. */
  function Weight(keys: seq<Body>): nat {
    |Flat(keys)|
  }

  lemma JoinWeighs(joined: Body, b: Body)
    requires joined != [] && Trimmed(joined) && Whole(b)
    ensures var both := Items(joined) + Items(b);
            if StartsAtBullet(b) || Items(joined) == [] then Items(AppendLines(joined, b)) == both
            else Weight(Items(AppendLines(joined, b))) > Weight(both)
  {
    TrimKeeps(joined);
    TrimKeeps(b);
    AppendKeepsItemsIff(joined, b);
    if !StartsAtBullet(b) && Items(joined) != [] { JoinGrows(joined, b); }
  }

  /** Prose behind an item becomes part of it. */
  lemma JoinGrows(joined: Body, b: Body)
    requires Items(joined) != [] && Whole(b) && !b[0].Bullet?
    ensures Weight(Items(joined + [EMPTY] + b)) > Weight(Items(joined) + Items(b))
  {
    var split := Segs(b);
    SegsFlat(b);
    SegsAreSegs(b);
    SegsAreSegs(joined);
    SegsOfFlat(split.segs);
    var gap := [EMPTY] + split.lead;
    assert joined + [EMPTY] + b == (joined + gap) + Flat(split.segs);
    ItemsCat(joined + gap, Flat(split.segs));
    assert Items(Flat(split.segs)) == Items(b);
    SegsProse(joined, gap);
    LastGrows(Segs(joined).segs, gap, b);
    FlatCat(Items(joined), Items(b));
    FlatCat(Items(joined + gap), Items(b));
  }

  lemma {:induction false} LastGrows(segs: seq<Body>, gap: Body, b: Body)
    requires segs != [] && AllSegs(segs) && b != [] && Trimmed(b) && gap == [EMPTY] + Segs(b).lead && Segs(b).lead != []
    ensures var k := |segs| - 1; Weight(TrimAll(segs[k := segs[k] + gap])) > Weight(TrimAll(segs))
  {
    var k := |segs| - 1;
    var last := segs[k];
    var tight := LastSolid(b, gap);
    assert last + gap == last + tight + gap[|tight|..];
    TrimAfter(last + tight, gap[|tight|..]);
    Longer(last, tight);
    InitAndLast(segs);
    assert segs[k := last + gap] == segs[..k] + [last + gap];
    TrimAllCat(segs[..k], [last]);
    TrimAllCat(segs[..k], [last + gap]);
    FlatCat(TrimAll(segs[..k]), TrimAll([last]));
    FlatCat(TrimAll(segs[..k]), TrimAll([last + gap]));
    FlatOne(Trim(last));
    FlatOne(Trim(last + gap));
    assert TrimAll([last]) == [Trim(last)] && TrimAll([last + gap]) == [Trim(last + gap)];
  }

  lemma FlatOne(s: Body)
    ensures Flat([s]) == s
  {
    assert Flat([s][1..]) == [];
  }

  lemma {:induction false} JoinedWeighs(bs: seq<Body>)
    requires AllWhole(bs)
    ensures Weight(Items(JoinAll(bs))) >= Weight(AllItems(bs))
    ensures if ProseFirst(bs) then Items(JoinAll(bs)) == AllItems(bs) else Weight(Items(JoinAll(bs))) > Weight(AllItems(bs))
    decreases bs
  {
    if bs != [] {
      var k := |bs| - 1;
      var init, b := bs[..k], bs[k];
      JoinedWeighs(init);
      if k == 0 {
        JoinOne(bs);
        assert AllItems(init) == [] && [] + Items(b) == Items(b);
      } else {
        JoinedIs(init);
        JoinWeighs(JoinAll(init), b);
        FlatCat(Items(JoinAll(init)), Items(b));
        FlatCat(AllItems(init), Items(b));
        ProseFirstLast(init, b);
        NoItemsIff(init);
        InitAndLast(bs);
      }
    }
  }

  lemma ProseFirstLast(init: seq<Body>, b: Body)
    ensures ProseFirst(init + [b]) <==>
            ProseFirst(init) && (StartsAtBullet(b) || forall i :: 0 <= i < |init| ==> Items(init[i]) == [])
  {
    var bs := init + [b];
    assert bs[|init|] == b && forall i :: 0 <= i < |init| ==> bs[i] == init[i];
  }

  lemma {:induction false} NoItemsIff(bs: seq<Body>)
    requires AllWhole(bs)
    ensures (forall i :: 0 <= i < |bs| ==> Items(bs[i]) == []) <==> AllItems(bs) == []
    decreases bs
  {
    if bs != [] {
      NoItemsIff(bs[..|bs| - 1]);
      InitAndLast(bs);
    }
  }

  /** Joining the bodies of a title keeps their items, one by one and in order, if and only if no
      body that opens with prose stands behind one with items. */
  lemma {:induction false} JoinKeepsItemsIff(bs: seq<Body>)
    requires AllWhole(bs)
    ensures Items(JoinAll(bs)) == AllItems(bs) <==> ProseFirst(bs)
  {
    JoinedWeighs(bs);
  }

  // ---------- A section ----------

  predicate NoRepeats(subs: seq<Sub>) {
    forall i, j :: 0 <= i < j < |subs| ==> subs[i].title != subs[j].title
  }

  predicate Neat(s: Sub) {
    Whole(s.lines) && s.first == 0
  }

  predicate AllNeat(subs: seq<Sub>) {
    forall j :: 0 <= j < |subs| ==> Neat(subs[j])
  }

  predicate Titled(subs: seq<Sub>, title: string) {
    exists j :: 0 <= j < |subs| && subs[j].title == title
  }

  /** Every title's bodies follow one another tightly. */
  predicate TightSubs(subs: seq<Sub>) {
    forall j :: 0 <= j < |subs| ==> Tight(Bodies(subs, subs[j].title))
  }

  /** One body a title, joined from the title's bodies. */
  ghost predicate JoinedSubs(subs: seq<Sub>, merged: seq<Sub>) {
    && NoRepeats(merged)
    && (forall j :: 0 <= j < |merged| ==> JoinedSub(subs, merged[j]))
    && forall title :: Bodies(subs, title) != [] ==> Titled(merged, title)
  }

  predicate JoinedSub(subs: seq<Sub>, m: Sub) {
    Bodies(subs, m.title) != [] && m == Sub(m.title, JoinAll(Bodies(subs, m.title)), 0)
  }

  /** Merging leaves one body a title, joined from the title's bodies. */
  lemma {:induction false} MergeIsJoin(subs: seq<Sub>)
    ensures JoinedSubs(subs, MergeSubs(subs))
    decreases subs
  {
    if subs != [] {
      var init, s := subs[..|subs| - 1], subs[|subs| - 1];
      MergeIsJoin(init);
      MergeLast(init, s);
      InitAndLast(subs);
      if Compact(s.lines) == [] {
        forall title ensures Bodies(subs, title) == Bodies(init, title) { BodiesLast(init, s, title); }
      } else {
        MergeOneJoins(init, MergeSubs(init), s);
      }
    }
  }

  lemma MergeOneJoins(init: seq<Sub>, acc: seq<Sub>, s: Sub)
    requires JoinedSubs(init, acc) && Compact(s.lines) != []
    ensures JoinedSubs(init + [s], MergeIn(acc, s.title, Compact(s.lines)))
  {
    var lines, i := Compact(s.lines), FindFirst(acc, s.title);
    var merged := MergeIn(acc, s.title, lines);
    JoinedMore(init, s);
    if i < |acc| {
      assert JoinedSub(init, acc[i]);
    } else {
      NotTitledYet(init, acc, s.title);
      CompactKeeps(s.lines);
      TrimKeeps(lines);
      assert JoinAll(Bodies(init, s.title)) == [];
    }
    OthersJoined(init, acc, s, merged[i]);
  }

  lemma {:induction false} NotTitledYet(subs: seq<Sub>, merged: seq<Sub>, title: string)
    requires JoinedSubs(subs, merged) && FindFirst(merged, title) == |merged|
    ensures Bodies(subs, title) == []
  {
    assert !Titled(merged, title);
  }

  lemma {:induction false} JoinedMore(init: seq<Sub>, s: Sub)
    requires Compact(s.lines) != []
    ensures JoinedSub(init + [s], Sub(s.title, AppendLines(JoinAll(Bodies(init, s.title)), Compact(s.lines)), 0))
  {
    var before, lines := Bodies(init, s.title), Compact(s.lines);
    BodiesLast(init, s, s.title);
    MoreInit(before, lines);
  }

  lemma {:induction false} OthersStay(init: seq<Sub>, s: Sub, title: string)
    requires title != s.title
    ensures Bodies(init + [s], title) == Bodies(init, title)
  {
    BodiesLast(init, s, title);
  }

  /** `acc` with `m` in place of the body of its title, or at the end. */
  function Put(acc: seq<Sub>, m: Sub): seq<Sub> {
    var i := FindFirst(acc, m.title);
    if i < |acc| then acc[i := m] else acc + [m]
  }

  lemma PutTitles(acc: seq<Sub>, m: Sub)
    requires NoRepeats(acc)
    ensures NoRepeats(Put(acc, m)) && Titled(Put(acc, m), m.title)
    ensures forall j :: 0 <= j < |Put(acc, m)| && Put(acc, m)[j] != m ==>
              Put(acc, m)[j] in acc && Put(acc, m)[j].title != m.title
    ensures forall j :: 0 <= j < |acc| ==> Put(acc, m)[j].title == acc[j].title
  {
    var i := FindFirst(acc, m.title);
    assert Put(acc, m)[i] == m;
  }

  lemma OthersJoined(init: seq<Sub>, acc: seq<Sub>, s: Sub, m: Sub)
    requires JoinedSubs(init, acc) && m.title == s.title && JoinedSub(init + [s], m)
    ensures JoinedSubs(init + [s], Put(acc, m))
  {
    var subs, merged := init + [s], Put(acc, m);
    PutTitles(acc, m);
    forall j | 0 <= j < |merged| ensures JoinedSub(subs, merged[j]) {
      if merged[j] != m {
        assert JoinedSub(init, merged[j]);
        OthersStay(init, s, merged[j].title);
      }
    }
    forall title | Bodies(subs, title) != [] ensures Titled(merged, title) {
      if title != s.title {
        OthersStay(init, s, title);
        StillTitled(acc, m, title);
      }
    }
  }

  lemma StillTitled(acc: seq<Sub>, m: Sub, title: string)
    requires NoRepeats(acc) && Titled(acc, title)
    ensures Titled(Put(acc, m), title)
  {
    PutTitles(acc, m);
    var j :| 0 <= j < |acc| && acc[j].title == title;
    assert Put(acc, m)[j].title == title;
  }

  /** What merging leaves needs no compacting if and only if every title's bodies were tight. */
  lemma {:induction false} MergedNeatIff(subs: seq<Sub>)
    ensures AllNeat(MergeSubs(subs)) <==> TightSubs(subs)
  {
    var merged := MergeSubs(subs);
    MergeIsJoin(subs);
    forall j | 0 <= j < |merged| ensures Neat(merged[j]) <==> Tight(Bodies(subs, merged[j].title)) {
      assert JoinedSub(subs, merged[j]);
      BodiesWhole(subs, merged[j].title);
      JoinIsWholeIff(Bodies(subs, merged[j].title));
    }
    if AllNeat(merged) {
      forall j | 0 <= j < |subs| ensures Tight(Bodies(subs, subs[j].title)) {
        if Bodies(subs, subs[j].title) != [] {
          assert Titled(merged, subs[j].title);
          var i :| 0 <= i < |merged| && merged[i].title == subs[j].title;
          assert Neat(merged[i]);
        }
      }
    }
    if TightSubs(subs) {
      forall j | 0 <= j < |merged| ensures Neat(merged[j]) {
        assert JoinedSub(subs, merged[j]);
        var title := merged[j].title;
        BodiesMember(subs, title, Bodies(subs, title)[0]);
        var i :| 0 <= i < |subs| && Under(subs[i], title);
        assert Tight(Bodies(subs, subs[i].title));
      }
    }
  }

  /** Bodies of items are tight if and only if every one that is followed by another of its title
      comes out of compacting with a bullet line at its end. */
  lemma ItemBodiesTightIff(subs: seq<Sub>)
    requires forall j :: 0 <= j < |subs| ==> Bulleted(subs[j])
    ensures TightSubs(subs) <==>
            forall i, j :: 0 <= i < j < |subs| && subs[i].title == subs[j].title && Compact(subs[j].lines) != []
              ==> EndsAtBullet(Compact(subs[i].lines))
  {
    forall title ensures Tight(Bodies(subs, title)) <==> EndsInBullets(subs, title) {
      TitleTightIff(subs, title);
    }
    if forall i, j :: 0 <= i < j < |subs| && subs[i].title == subs[j].title && Compact(subs[j].lines) != []
         ==> EndsAtBullet(Compact(subs[i].lines)) {
      forall j | 0 <= j < |subs|
        ensures Tight(Bodies(subs, subs[j].title))
      { assert EndsInBullets(subs, subs[j].title); }
    }
    if TightSubs(subs) {
      forall i, j | 0 <= i < j < |subs| && subs[i].title == subs[j].title && Compact(subs[j].lines) != []
        ensures EndsAtBullet(Compact(subs[i].lines))
      {
        assert EndsInBullets(subs, subs[j].title) && Under(subs[j], subs[j].title);
      }
    }
  }

  predicate EndsInBullets(subs: seq<Sub>, title: string) {
    forall i, j :: 0 <= i < j < |subs| && subs[i].title == title && Under(subs[j], title) ==>
      EndsAtBullet(Compact(subs[i].lines))
  }

  lemma {:induction false} TitleTightIff(subs: seq<Sub>, title: string)
    requires forall j :: 0 <= j < |subs| ==> Bulleted(subs[j])
    ensures AllAtBullet(Bodies(subs, title)) && (Tight(Bodies(subs, title)) <==> EndsInBullets(subs, title))
    decreases subs
  {
    if subs == [] {
      assert Bodies(subs, title) == [];
    } else {
      var init, s := subs[..|subs| - 1], subs[|subs| - 1];
      TitleTightIff(init, title);
      InitAndLast(subs);
      TitleTightLast(init, s, title);
    }
  }

  lemma {:induction false} TitleTightLast(init: seq<Sub>, s: Sub, title: string)
    requires Bulleted(s) && AllAtBullet(Bodies(init, title))
    requires Tight(Bodies(init, title)) <==> EndsInBullets(init, title)
    ensures AllAtBullet(Bodies(init + [s], title))
    ensures Tight(Bodies(init + [s], title)) <==> EndsInBullets(init + [s], title)
  {
    var bs, b := Bodies(init, title), Compact(s.lines);
    BodiesLast(init, s, title);
    EndsLast(init, s, title);
    if Under(s, title) {
      CompactStart(s.lines);
      AllEndIff(init, title);
      TightLast(bs, b);
      AllEndIsTight(bs);
      AtBulletLast(bs, b);
    } else {
      assert bs + [] == bs;
    }
  }

  lemma AtBulletLast(bs: seq<Body>, b: Body)
    requires AllAtBullet(bs) && StartsAtBullet(b)
    ensures AllAtBullet(bs + [b])
  {
  }

  lemma AllEndIsTight(bs: seq<Body>)
    requires AllAtBullet(bs)
    ensures AllEndAtBullet(bs) ==> Tight(bs)
  {
  }

  predicate AllTitledEnd(subs: seq<Sub>, title: string) {
    forall i :: 0 <= i < |subs| && subs[i].title == title ==> EndsAtBullet(Compact(subs[i].lines))
  }

  predicate AllAtBullet(bs: seq<Body>) {
    forall i :: 0 <= i < |bs| ==> StartsAtBullet(bs[i])
  }

  predicate AllEndAtBullet(bs: seq<Body>) {
    forall i :: 0 <= i < |bs| ==> EndsAtBullet(bs[i])
  }

  lemma TightLast(bs: seq<Body>, b: Body)
    requires AllAtBullet(bs) && StartsAtBullet(b)
    ensures Tight(bs + [b]) <==> AllEndAtBullet(bs)
  {
    var more := bs + [b];
    if Tight(more) {
      forall i | 0 <= i < |bs| ensures EndsAtBullet(bs[i]) { assert Link(more[i + 1 - 1], more[i + 1]); }
    }
    if AllEndAtBullet(bs) {
      forall i | 0 < i < |more| ensures Link(more[i - 1], more[i]) { assert EndsAtBullet(bs[i - 1]); }
    }
  }

  lemma EndsLast(init: seq<Sub>, s: Sub, title: string)
    ensures EndsInBullets(init + [s], title) <==>
            EndsInBullets(init, title) && (Under(s, title) ==> AllTitledEnd(init, title))
  {
    var subs := init + [s];
    assert forall i :: 0 <= i < |init| ==> subs[i] == init[i];
    assert subs[|init|] == s;
    if EndsInBullets(subs, title) {
      forall i, j | 0 <= i < j < |init| && init[i].title == title && Under(init[j], title)
        ensures EndsAtBullet(Compact(init[i].lines))
      { assert subs[i] == init[i] && subs[j] == init[j]; }
      forall i | 0 <= i < |init| && init[i].title == title && Under(s, title)
        ensures EndsAtBullet(Compact(init[i].lines))
      {
        assert subs[i] == init[i];
      }
    }
  }

  lemma {:induction false} AllEndIff(subs: seq<Sub>, title: string)
    ensures AllEndAtBullet(Bodies(subs, title)) <==> AllTitledEnd(subs, title)
  {
    var bs := Bodies(subs, title);
    if AllEndAtBullet(bs) {
      forall i | 0 <= i < |subs| && subs[i].title == title ensures EndsAtBullet(Compact(subs[i].lines)) {
        if Under(subs[i], title) {
          BodiesMember(subs, title, Compact(subs[i].lines));
          var k :| 0 <= k < |bs| && bs[k] == Compact(subs[i].lines);
        }
      }
    }
    if AllTitledEnd(subs, title) {
      forall k | 0 <= k < |bs| ensures EndsAtBullet(bs[k]) {
        BodiesMember(subs, title, bs[k]);
      }
    }
  }

  // ---------- Without a repeated heading ----------

  function CompactOne(s: Sub): seq<Sub> {
    if Compact(s.lines) == [] then [] else [Sub(s.title, Compact(s.lines), 0)]
  }

  function CompactSubs(subs: seq<Sub>): seq<Sub> {
    if subs == [] then [] else CompactSubs(subs[..|subs| - 1]) + CompactOne(subs[|subs| - 1])
  }

  lemma CompactStep(acc: seq<Sub>, s: Sub)
    requires NoRepeats(acc) && AllNeat(acc) && forall j :: 0 <= j < |acc| ==> acc[j].title != s.title
    ensures NoRepeats(acc + CompactOne(s)) && AllNeat(acc + CompactOne(s))
  {
    CompactKeeps(s.lines);
  }

  /** Without a repeated heading nothing is merged, only compacted. */
  lemma {:induction false} MergeCompacts(subs: seq<Sub>)
    requires NoRepeats(subs)
    ensures MergeSubs(subs) == CompactSubs(subs) && NoRepeats(CompactSubs(subs)) && AllNeat(CompactSubs(subs))
    ensures forall title :: Titled(CompactSubs(subs), title) ==> Titled(subs, title)
    ensures SubsKeys(CompactSubs(subs)) == SubsKeys(subs)
    decreases subs
  {
    if subs == [] {
      assert CompactSubs(subs) == [];
    } else {
      var init, s := subs[..|subs| - 1], subs[|subs| - 1];
      MergeCompacts(init);
      InitAndLast(subs);
      NotTitled(subs, CompactSubs(init));
      MergeLast(init, s);
      CompactLast(init, CompactSubs(init), s);
    }
  }

  lemma CompactLast(init: seq<Sub>, acc: seq<Sub>, s: Sub)
    requires NoRepeats(acc) && AllNeat(acc) && forall j :: 0 <= j < |acc| ==> acc[j].title != s.title
    requires SubsKeys(acc) == SubsKeys(init) && forall title :: Titled(acc, title) ==> Titled(init, title)
    ensures NoRepeats(acc + CompactOne(s)) && AllNeat(acc + CompactOne(s))
    ensures forall title :: Titled(acc + CompactOne(s), title) ==> Titled(init + [s], title)
    ensures SubsKeys(acc + CompactOne(s)) == SubsKeys(init + [s])
  {
    CompactStep(acc, s);
    TitledMore(init, acc, s);
    SubsKeysCat(init, [s]);
    SubsKeysCat(acc, CompactOne(s));
    CompactOneKeys(s);
  }

  lemma CompactOneKeys(s: Sub)
    ensures SubsKeys([s]) == SubsKeys(CompactOne(s))
  {
    SubsKeysOne(s);
    CompactKeeps(s.lines);
    if Compact(s.lines) == [] {
      NoItems(s);
      NoKeys();
    } else {
      var t := Sub(s.title, Compact(s.lines), 0);
      SubsKeysOne(t);
      SameKeys(s, t);
    }
  }

  lemma {:induction false} NotTitled(subs: seq<Sub>, acc: seq<Sub>)
    requires subs != [] && NoRepeats(subs)
    requires forall title :: Titled(acc, title) ==> Titled(subs[..|subs| - 1], title)
    ensures FindFirst(acc, subs[|subs| - 1].title) == |acc|
    ensures forall j :: 0 <= j < |acc| ==> acc[j].title != subs[|subs| - 1].title
  {
    var title := subs[|subs| - 1].title;
    forall j | 0 <= j < |acc| ensures acc[j].title != title {
      assert Titled(acc, acc[j].title);
      var i :| 0 <= i < |subs| - 1 && subs[..|subs| - 1][i].title == acc[j].title;
      assert subs[i].title == acc[j].title;
    }
  }

  lemma TitledMore(init: seq<Sub>, acc: seq<Sub>, s: Sub)
    requires forall title :: Titled(acc, title) ==> Titled(init, title)
    ensures forall title :: Titled(acc + CompactOne(s), title) ==> Titled(init + [s], title)
  {
    forall title | Titled(acc + CompactOne(s), title) ensures Titled(init + [s], title) {
      var j :| 0 <= j < |acc + CompactOne(s)| && (acc + CompactOne(s))[j].title == title;
      if j < |acc| {
        assert Titled(acc, title);
        var i :| 0 <= i < |init| && init[i].title == title;
        assert (init + [s])[i].title == title;
      } else {
        assert (init + [s])[|init|].title == title;
      }
    }
  }

  lemma {:induction false} NeatStays(subs: seq<Sub>)
    requires AllNeat(subs)
    ensures CompactSubs(subs) == subs && TrimSubs(subs) == subs
    decreases subs
  {
    if subs != [] {
      var init, s := subs[..|subs| - 1], subs[|subs| - 1];
      NeatStays(init);
      assert Neat(s);
      InitAndLast(subs);
      NeatLast(init, s);
    }
  }

  lemma {:induction false} NeatLast(init: seq<Sub>, s: Sub)
    requires Neat(s) && CompactSubs(init) == init && TrimSubs(init) == init
    ensures CompactSubs(init + [s]) == init + [s] && TrimSubs(init + [s]) == init + [s]
  {
    TrimKeeps(s.lines);
    TrimSubsCat(init, [s]);
    TrimOne(s);
    MoreInit(init, s);
  }

  lemma {:induction false} MergeLastTrimmed(init: seq<Sub>, s: Sub)
    requires MergeSubs(TrimSubs(init)) == MergeSubs(init)
    ensures MergeSubs(TrimSubs(init + [s])) == MergeSubs(init + [s])
  {
    var t := Sub(s.title, Trim(s.lines), 0);
    TrimSubsCat(init, [s]);
    CompactKeeps(s.lines);
    TrimOne(s);
    MergeLast(init, s);
    if t.lines == [] {
      assert TrimSubs(init) + [] == TrimSubs(init);
    } else {
      MergeLast(TrimSubs(init), t);
    }
  }

  /** Loose blank lines and blank bodies make no difference to merging. */
  lemma {:induction false} MergeOfTrimmed(subs: seq<Sub>)
    ensures MergeSubs(TrimSubs(subs)) == MergeSubs(subs)
    decreases subs
  {
    if subs != [] {
      var init, s := subs[..|subs| - 1], subs[|subs| - 1];
      InitAndLast(subs);
      MergeOfTrimmed(init);
      MergeLastTrimmed(init, s);
    }
  }

  lemma TrimOne(s: Sub)
    ensures TrimSubs([s]) == if Trim(s.lines) == [] then [] else [Sub(s.title, Trim(s.lines), 0)]
  {
    assert TrimSubs([s][1..]) == [];
  }

  // ---------- A section a run is done with ----------

  /** As a run leaves a section. */
  predicate Settled(s: Section) {
    && Trimmed(s.leading) && AllNeat(s.subs) && NoRepeats(s.subs)
    && (IsUnreleased(s) ==> Sort(s.subs, ByTitle()) == s.subs)
  }

  lemma OnceOnly(a: seq<Sub>, x: Sub)
    requires NoRepeats(a)
    ensures multiset(a)[x] <= 1
  {
    if x in a {
      var i :| 0 <= i < |a| && a[i] == x;
      assert a == a[..i] + [a[i]] + a[i + 1..];
      assert x !in a[..i] && x !in a[i + 1..];
    }
  }

  lemma SortKeepsTitles(a: seq<Sub>, b: seq<Sub>)
    requires multiset(a) == multiset(b) && NoRepeats(a)
    ensures NoRepeats(b)
  {
    forall j | 0 <= j < |b| ensures b[j] in a { assert b[j] in multiset(b); }
    forall i, j | 0 <= i < j < |b| ensures b[i].title != b[j].title {
      if b[i] == b[j] {
        OnceOnly(a, b[i]);
        TwiceIn(b, i, j);
      } else {
        var k :| 0 <= k < |a| && a[k] == b[i];
        var m :| 0 <= m < |a| && a[m] == b[j];
        assert k != m;
      }
    }
  }

  lemma TwiceIn(b: seq<Sub>, i: nat, j: nat)
    requires i < j < |b| && b[i] == b[j]
    ensures multiset(b)[b[i]] >= 2
  {
    assert b == b[..j] + [b[j]] + b[j + 1..];
    assert b[..j][i] == b[i] && b[i] in multiset(b[..j]);
  }

  /** A section comes out settled if and only if its bodies were tight. */
  lemma SettledIff(s: Section)
    ensures Settled(Normalized(s)) <==> TightSubs(s.subs)
    ensures NoRepeats(Normalized(s).subs) && Trimmed(Normalized(s).leading)
  {
    var subs := MergeSubs(s.subs);
    MergedNeatIff(s.subs);
    MergeIsJoin(s.subs);
    TrimTwice(s.leading);
    Orderings();
    if IsUnreleased(s) {
      var sorted := Sort(subs, ByTitle());
      SortSorts(subs, ByTitle());
      SortKeeps(sorted, ByTitle());
      SortedTitles(subs, sorted);
      SortedTitles(sorted, subs);
    }
  }

  lemma SortedTitles(a: seq<Sub>, b: seq<Sub>)
    requires multiset(a) == multiset(b)
    ensures AllNeat(a) ==> AllNeat(b)
    ensures NoRepeats(a) ==> NoRepeats(b)
  {
    if AllNeat(a) {
      forall j | 0 <= j < |b| ensures Neat(b[j]) { assert b[j] in multiset(b) && b[j] in a; }
    }
    if NoRepeats(a) { SortKeepsTitles(a, b); }
  }

  /** A section whose headings do not repeat, blank bodies aside, keeps its keys and comes out
      compact and in order. */
  lemma NormalizedSettles(s: Section)
    requires NoRepeats(TrimSubs(s.subs))
    ensures Settled(Normalized(s)) && SubsKeys(Normalized(s).subs) == SubsKeys(s.subs)
  {
    var subs := MergeSubs(s.subs);
    MergeOfTrimmed(s.subs);
    MergeCompacts(TrimSubs(s.subs));
    TrimSubsKeys(s.subs);
    MergedNeatIff(s.subs);
    SettledIff(s);
    Orderings();
    if IsUnreleased(s) {
      SortSorts(subs, ByTitle());
      SameMembers(subs, Sort(subs, ByTitle()));
    }
  }

  /** A settled section that has been written and read back is normalised to itself. */
  lemma SettledStays(s: Section, t: Section)
    requires Settled(t) && TrimSection(s) == t
    ensures Normalized(s) == t
  {
    NeatStays(t.subs);
    MergeCompacts(t.subs);
    MergeOfTrimmed(s.subs);
  }

  lemma SettledTrims(s: Section)
    requires Settled(s)
    ensures TrimSection(s) == s
  {
    NeatStays(s.subs);
    TrimKeeps(s.leading);
  }

  // ---------- Sections in order ----------

  lemma {:induction false} ThoseOfThose(a: seq<Section>, b: seq<Section>, which: Section -> bool)
    ensures Those(a + b, which) == Those(a, which) + Those(b, which)
    decreases a
  {
    if a == [] {
      assert a + b == b;
    } else {
      var first: seq<Section> := if which(a[0]) then [a[0]] else [];
      CatTail(a, b);
      ThoseOfThose(a[1..], b, which);
      assert first + (Those(a[1..], which) + Those(b, which)) == first + Those(a[1..], which) + Those(b, which);
    }
  }

  lemma {:induction false} ThoseAll(a: seq<Section>, which: Section -> bool, all: bool)
    requires forall s <- a :: which(s) == all
    ensures Those(a, which) == if all then a else []
    decreases a
  {
    if a != [] {
      ThoseAll(a[1..], which, all);
      HeadAndTail(a);
    }
  }

  /** Sorting sections twice is sorting them once. */
  lemma SortTwice(ss: seq<Section>)
    ensures SortSections(SortSections(ss)) == SortSections(ss)
  {
    var u, r := Those(ss, IsUnreleased), Those(ss, IsReleased);
    var sorted := Sort(r, ByVersion());
    ThoseMember(ss, IsUnreleased);
    ThoseMember(ss, IsReleased);
    Orderings();
    SortSorts(r, ByVersion());
    forall s <- sorted ensures IsReleased(s) { assert s in multiset(sorted) && s in multiset(r); }
    ThoseOfThose(u, sorted, IsUnreleased);
    ThoseOfThose(u, sorted, IsReleased);
    ThoseAll(u, IsUnreleased, true);
    ThoseAll(u, IsReleased, false);
    ThoseAll(sorted, IsUnreleased, false);
    ThoseAll(sorted, IsReleased, true);
    assert u + [] == u && [] + sorted == sorted;
    SortKeeps(sorted, ByVersion());
  }

  /** The first Unreleased section comes out first. */
  lemma {:induction false} FirstOfThose(ss: seq<Section>)
    ensures var u := FirstUnreleased(ss);
            if u < |ss| then Those(ss, IsUnreleased) != [] && Those(ss, IsUnreleased)[0] == ss[u]
            else Those(ss, IsUnreleased) == []
    decreases ss
  {
    if ss != [] { FirstOfThose(ss[1..]); }
  }

  lemma {:induction false} FirstSorted(ss: seq<Section>)
    ensures var u, v := FirstUnreleased(ss), FirstUnreleased(SortSections(ss));
            (u < |ss| <==> v < |SortSections(ss)|) && (u < |ss| ==> SortSections(ss)[v] == ss[u])
  {
    FirstOfThose(ss);
    FirstOfThose(SortSections(ss));
    var u, r := Those(ss, IsUnreleased), Those(ss, IsReleased);
    var sorted := Sort(r, ByVersion());
    ThoseMember(ss, IsUnreleased);
    ThoseMember(ss, IsReleased);
    Orderings();
    SortSorts(r, ByVersion());
    forall s <- sorted ensures IsReleased(s) { assert s in multiset(sorted) && s in multiset(r); }
    ThoseOfThose(u, sorted, IsUnreleased);
    ThoseAll(u, IsUnreleased, true);
    ThoseAll(sorted, IsUnreleased, false);
    assert u + [] == u;
  }

  // ---------- The document ----------

  predicate NoneRepeats(ss: seq<Section>) {
    forall i :: 0 <= i < |ss| ==> NoRepeats(ss[i].subs)
  }

  predicate AllTight(ss: seq<Section>) {
    forall i :: 0 <= i < |ss| ==> TightSubs(ss[i].subs)
  }

  predicate AllSettled(ss: seq<Section>) {
    forall i :: 0 <= i < |ss| ==> Settled(ss[i])
  }

  lemma SettleSettlesIff(doc: Doc)
    ensures AllSettled(Settle(doc).sections) <==> AllTight(doc.sections)
  {
    var ns, fs := NormalizedAll(doc.sections), Settle(doc).sections;
    SortedMember(ns);
    forall i | 0 <= i < |ns|
      ensures Settled(ns[i]) <==> TightSubs(doc.sections[i].subs)
    { SettledIff(doc.sections[i]); }
    if AllSettled(fs) {
      forall i | 0 <= i < |ns| ensures Settled(ns[i]) {
        assert ns[i] in fs;
        var j :| 0 <= j < |fs| && fs[j] == ns[i];
      }
    }
    if AllSettled(ns) {
      forall i | 0 <= i < |fs| ensures Settled(fs[i]) { assert fs[i] in ns; }
    }
  }

  /** Settling that keeps every section's keys neither makes nor ends a release of what is
      Unreleased. */
  lemma SettleReleases(doc: Doc)
    requires forall i :: 0 <= i < |doc.sections| ==> SubsKeys(Normalized(doc.sections[i]).subs) == SubsKeys(doc.sections[i].subs)
    ensures NoneReleased(Settle(doc).sections) <==> NoneReleased(doc.sections)
  {
    var ns := NormalizedAll(doc.sections);
    AllKeysSame(ns, doc.sections);
    SortedKeeps(ns);
    SameFirst(ns, doc.sections);
    FirstSorted(ns);
  }

  lemma TrimmedReleases(a: Doc, b: Doc)
    requires TrimDoc(a) == TrimDoc(b)
    ensures NoneReleased(a.sections) <==> NoneReleased(b.sections)
  {
    TrimmedHolds(a, b);
    forall i | 0 <= i < |a.sections|
      ensures a.sections[i].heading == b.sections[i].heading && SubsKeys(a.sections[i].subs) == SubsKeys(b.sections[i].subs)
    { assert Holdings(a.sections)[i] == Holdings(b.sections)[i]; }
    assert |Holdings(a.sections)| == |Holdings(b.sections)|;
    AllKeysSame(a.sections, b.sections);
    SameFirst(a.sections, b.sections);
  }

  /** Bodies that hold no more than others, title by title, repeat no heading that those do not. */
  lemma {:induction false} FewerRepeats(a: seq<Sub>, b: seq<Sub>)
    requires |a| == |b| && forall j :: 0 <= j < |a| ==> a[j].title == b[j].title
    requires forall j :: 0 <= j < |a| && Trim(a[j].lines) == [] ==> Trim(b[j].lines) == []
    requires NoRepeats(TrimSubs(a))
    ensures NoRepeats(TrimSubs(b)) && forall title :: Titled(TrimSubs(b), title) ==> Titled(TrimSubs(a), title)
    decreases a
  {
    if a != [] {
      TrimFirst(a);
      TrimFirst(b);
      NoRepeatsRest(TrimOnly(a[0]), TrimSubs(a[1..]));
      FewerRepeats(a[1..], b[1..]);
      FewerFirst(a[0], b[0], TrimSubs(a[1..]), TrimSubs(b[1..]));
    }
  }

  function TrimOnly(s: Sub): seq<Sub> {
    if Trim(s.lines) == [] then [] else [Sub(s.title, Trim(s.lines), 0)]
  }

  lemma {:induction false} TrimFirst(subs: seq<Sub>)
    requires subs != []
    ensures TrimSubs(subs) == TrimOnly(subs[0]) + TrimSubs(subs[1..])
  {
  }

  lemma NoRepeatsRest(first: seq<Sub>, rest: seq<Sub>)
    requires NoRepeats(first + rest) && |first| <= 1
    ensures NoRepeats(rest)
  {
    forall i, j | 0 <= i < j < |rest| ensures rest[i].title != rest[j].title {
      assert rest[i] == (first + rest)[|first| + i] && rest[j] == (first + rest)[|first| + j];
    }
  }

  lemma FewerFirst(s: Sub, t: Sub, a: seq<Sub>, b: seq<Sub>)
    requires s.title == t.title && (Trim(s.lines) == [] ==> Trim(t.lines) == [])
    requires NoRepeats(TrimOnly(s) + a) && NoRepeats(b) && forall title :: Titled(b, title) ==> Titled(a, title)
    ensures NoRepeats(TrimOnly(t) + b)
    ensures forall title :: Titled(TrimOnly(t) + b, title) ==> Titled(TrimOnly(s) + a, title)
  {
    var more, fewer := TrimOnly(s) + a, TrimOnly(t) + b;
    forall title | Titled(b, title) ensures Titled(more, title) {
      var j :| 0 <= j < |a| && a[j].title == title;
      assert more[|TrimOnly(s)| + j].title == title;
    }
    if Trim(t.lines) != [] {
      assert more[0].title == t.title && fewer[0].title == t.title;
      forall j | 0 <= j < |b| ensures b[j].title != t.title {
        assert Titled(b, b[j].title);
        var i :| 0 <= i < |a| && a[i].title == b[j].title;
        assert more[i + 1] == a[i] && more[0].title != more[i + 1].title;
      }
      forall title | Titled(fewer, title) ensures Titled(more, title) {
        var j :| 0 <= j < |fewer| && fewer[j].title == title;
        if j > 0 { assert b[j - 1] == fewer[j]; }
      }
    } else {
      assert fewer == b;
    }
  }

  lemma OutlineNoRepeats(a: seq<Section>, b: seq<Section>)
    requires SameOutline(a, b) && NoneRepeats(a)
    ensures NoneRepeats(b)
  {
    forall i | 0 <= i < |b| ensures NoRepeats(b[i].subs) {
      assert NoRepeats(a[i].subs);
      forall j, k | 0 <= j < k < |b[i].subs| ensures b[i].subs[j].title != b[i].subs[k].title {
        assert a[i].subs[j].title != a[i].subs[k].title;
      }
    }
  }

  /** What a run wrote, read back: no heading repeats, blank bodies aside. */
  lemma WrittenNoRepeats(doc: Doc, back: Doc, i: nat)
    requires TrimDoc(back) == TrimDoc(Settle(doc)) && i < |back.sections|
    ensures NoRepeats(TrimSubs(back.sections[i].subs))
  {
    var fs := Settle(doc).sections;
    assert TrimDoc(back).sections[i] == TrimDoc(Settle(doc)).sections[i];
    SortedMember(NormalizedAll(doc.sections));
    assert fs[i] in NormalizedAll(doc.sections);
    var k :| 0 <= k < |doc.sections| && NormalizedAll(doc.sections)[k] == fs[i];
    SettledIff(doc.sections[k]);
    NoRepeatsTrims(fs[i].subs);
  }

  lemma {:induction false} NoRepeatsTrims(subs: seq<Sub>)
    requires NoRepeats(subs)
    ensures NoRepeats(TrimSubs(subs)) && forall title :: Titled(TrimSubs(subs), title) ==> Titled(subs, title)
    decreases subs
  {
    if subs != [] {
      HeadAndTail(subs);
      NoRepeatsRest([subs[0]], subs[1..]);
      NoRepeatsTrims(subs[1..]);
      TrimFirst(subs);
      TitlesFirst(subs, TrimOnly(subs[0]), TrimSubs(subs[1..]));
    }
  }

  lemma TitlesFirst(subs: seq<Sub>, first: seq<Sub>, rest: seq<Sub>)
    requires subs != [] && NoRepeats(subs) && NoRepeats(rest)
    requires forall title :: Titled(rest, title) ==> Titled(subs[1..], title)
    requires |first| <= 1 && (first != [] ==> first[0].title == subs[0].title)
    ensures NoRepeats(first + rest) && forall title :: Titled(first + rest, title) ==> Titled(subs, title)
  {
    var out := first + rest;
    forall j | 0 <= j < |rest| ensures Titled(subs, rest[j].title) && rest[j].title != subs[0].title {
      assert Titled(rest, rest[j].title);
      var i :| 0 <= i < |subs[1..]| && subs[1..][i].title == rest[j].title;
      assert subs[i + 1].title == rest[j].title && subs[0].title != subs[i + 1].title;
    }
    forall i, j | 0 <= i < j < |out| ensures out[i].title != out[j].title {
      assert out[j] == rest[j - |first|];
      if i >= |first| { assert out[i] == rest[i - |first|]; }
    }
    forall title | Titled(out, title) ensures Titled(subs, title) {
      var j :| 0 <= j < |out| && out[j].title == title;
      if j >= |first| { assert out[j] == rest[j - |first|]; } else { assert subs[0].title == title; }
    }
  }

  /** Dropping repeats no heading either. */
  lemma DroppedNoRepeats(ss: seq<Section>, ds: seq<Section>, i: nat)
    requires Dropped(ss, ds) && i < |ss| && NoRepeats(TrimSubs(ss[i].subs))
    ensures NoRepeats(TrimSubs(ds[i].subs))
  {
    if i == FirstUnreleased(ss) {
      var a, b := ss[i].subs, ds[i].subs;
      forall j | 0 <= j < |a| && Trim(a[j].lines) == []
        ensures Trim(b[j].lines) == []
      { BlankLines(a[j].lines, b[j].lines); }
      FewerRepeats(a, b);
    }
  }

  lemma BlankLines(a: Body, b: Body)
    requires Trim(a) == [] && forall l <- b :: l in a
    ensures Trim(b) == []
  {
    var pre, post := TrimParts(a);
    assert a == pre + post;
    forall i | 0 <= i < |b| ensures b[i].Blank? { assert b[i] in a; }
    TrimIs(b, [], []);
    assert b + [] + [] == b;
  }

  /** A second run's sections come out settled, with their keys. */
  lemma SecondRunSettles(doc: Doc, back: Doc, es: seq<Section>)
    requires TrimDoc(back) == TrimDoc(Settle(doc)) && Dropped(back.sections, es)
    ensures AllSettled(Settle(Doc(back.prefix, es)).sections)
    ensures NoneReleased(Settle(Doc(back.prefix, es)).sections)
  {
    var again := Doc(back.prefix, es);
    forall i | 0 <= i < |es|
      ensures TightSubs(es[i].subs) && SubsKeys(Normalized(es[i]).subs) == SubsKeys(es[i].subs)
    {
      WrittenNoRepeats(doc, back, i);
      DroppedNoRepeats(back.sections, es, i);
      NormalizedSettles(es[i]);
      SettledIff(es[i]);
    }
    SettleSettlesIff(again);
    SettleReleases(again);
  }

  lemma SettledTrimDoc(doc: Doc)
    requires AllSettled(doc.sections)
    ensures TrimDoc(doc).sections == doc.sections
  {
    forall i | 0 <= i < |doc.sections|
      ensures TrimSection(doc.sections[i]) == doc.sections[i]
    { SettledTrims(doc.sections[i]); }
  }

  /** A section that was merged and sorted has no loose blank lines. */
  lemma NormalizedTrims(s: Section)
    ensures TrimSection(Normalized(s)) == Normalized(s)
  {
    var subs := MergeSubs(s.subs);
    TrimTwice(s.leading);
    MergedSolidly(s.subs);
    Orderings();
    SortSorts(subs, ByTitle());
    SolidlyPermute(subs, Sort(subs, ByTitle()));
    SolidlyTrims(subs);
    SolidlyTrims(Sort(subs, ByTitle()));
  }

  lemma {:induction false} MergedSolidly(subs: seq<Sub>)
    ensures forall j :: 0 <= j < |MergeSubs(subs)| ==> Solidly(MergeSubs(subs)[j])
  {
    var merged := MergeSubs(subs);
    MergeIsJoin(subs);
    forall j | 0 <= j < |merged| ensures Solidly(merged[j]) {
      assert JoinedSub(subs, merged[j]);
      BodiesWhole(subs, merged[j].title);
      JoinedIs(Bodies(subs, merged[j].title));
    }
  }

  lemma SolidlyPermute(a: seq<Sub>, b: seq<Sub>)
    requires multiset(a) == multiset(b) && forall j :: 0 <= j < |a| ==> Solidly(a[j])
    ensures forall j :: 0 <= j < |b| ==> Solidly(b[j])
  {
    forall j | 0 <= j < |b| ensures Solidly(b[j]) { assert b[j] in multiset(b) && b[j] in a; }
  }

  predicate Solidly(s: Sub) {
    s.lines != [] && Trimmed(s.lines) && s.first == 0
  }

  lemma {:induction false} SolidlyTrims(subs: seq<Sub>)
    requires forall j :: 0 <= j < |subs| ==> Solidly(subs[j])
    ensures TrimSubs(subs) == subs
    decreases subs
  {
    if subs != [] {
      TrimKeeps(subs[0].lines);
      SolidlyTrims(subs[1..]);
      TrimFirst(subs);
      HeadAndTail(subs);
    }
  }

  lemma SettleTrims(doc: Doc)
    ensures TrimDoc(Settle(doc)).sections == Settle(doc).sections
  {
    var ns, fs := NormalizedAll(doc.sections), Settle(doc).sections;
    SortedMember(ns);
    forall i | 0 <= i < |fs| ensures TrimSection(fs[i]) == fs[i] {
      assert fs[i] in ns;
      var k :| 0 <= k < |doc.sections| && ns[k] == fs[i];
      NormalizedTrims(doc.sections[k]);
    }
  }

  /** Settled sections, read back from what was written of them, come to themselves again. */
  lemma SettledAgain(doc: Doc, back: Doc)
    requires AllSettled(doc.sections) && SortSections(doc.sections) == doc.sections && TrimDoc(back) == TrimDoc(doc)
    ensures Settle(back).sections == doc.sections
  {
    forall i | 0 <= i < |doc.sections| ensures Normalized(back.sections[i]) == doc.sections[i] {
      SettledTrims(doc.sections[i]);
      assert TrimDoc(back).sections[i] == TrimDoc(doc).sections[i];
      SettledStays(back.sections[i], doc.sections[i]);
    }
    assert |back.sections| == |TrimDoc(back).sections|;
    assert NormalizedAll(back.sections) == doc.sections;
  }

  /** What a second run changes, for every document: nothing if and only if the bodies of every
      title were tight, and nothing in Unreleased is released once they are merged. */
  lemma TwiceIsOnceIff(doc: Doc, once: Body, es: seq<Section>, twice: Body)
    requires NoHead(doc.prefix, IsRelease) && AllWellformed(doc.sections) && once == Render(Settle(doc))
    requires DropResult(Parse(once).sections, es) && twice == Render(Settle(Doc(Parse(once).prefix, es)))
    ensures twice == once <==> AllTight(doc.sections) && NoneReleased(Settle(doc).sections)
  {
    var back := Parse(once);
    SettledWellformed(doc);
    WrittenKeys(Settle(doc));
    ParsedWellformed(once);
    if twice == once { TwiceMeans(doc, back, es, twice); }
    if AllTight(doc.sections) && NoneReleased(Settle(doc).sections) { TightMeans(doc, back, es); }
  }

  lemma TightMeans(doc: Doc, back: Doc, es: seq<Section>)
    requires TrimDoc(back) == TrimDoc(Settle(doc)) && DropResult(back.sections, es)
    requires AllTight(doc.sections) && NoneReleased(Settle(doc).sections)
    ensures Render(Settle(Doc(back.prefix, es))) == Render(Settle(doc))
  {
    TrimmedReleases(back, Settle(doc));
    SettleSettlesIff(doc);
    SortTwice(NormalizedAll(doc.sections));
    SameAgain(Settle(doc), back);
    assert back == Doc(back.prefix, es);
  }

  lemma SameAgain(doc: Doc, back: Doc)
    requires AllSettled(doc.sections) && SortSections(doc.sections) == doc.sections && TrimDoc(back) == TrimDoc(doc)
    ensures Render(Settle(back)) == Render(doc)
  {
    SettledAgain(doc, back);
    RenderTrim(Settle(back));
    RenderTrim(doc);
    assert TrimDoc(Settle(back)) == TrimDoc(doc);
  }

  lemma TwiceMeans(doc: Doc, back: Doc, es: seq<Section>, twice: Body)
    requires TrimDoc(back) == TrimDoc(Settle(doc)) && NoHead(back.prefix, IsRelease) && DropResult(back.sections, es)
    requires twice == Render(Settle(Doc(back.prefix, es))) && Parse(twice) == back
    ensures AllTight(doc.sections) && NoneReleased(Settle(doc).sections)
  {
    var again := Doc(back.prefix, es);
    SettledWellformed(again);
    WrittenKeys(Settle(again));
    SecondRunSettles(doc, back, es);
    SettledTrimDoc(Settle(again));
    SettleTrims(doc);
    assert Settle(again).sections == Settle(doc).sections;
    SettleSettlesIff(doc);
  }

  /** With bodies of items, merging releases nothing. */
  lemma ItemsStayUnreleased(doc: Doc)
    requires GoodSections(doc.sections) && NoneReleased(doc.sections)
    ensures NoneReleased(Settle(doc).sections)
  {
    forall i | 0 <= i < |doc.sections|
      ensures SubsKeys(Normalized(doc.sections[i]).subs) == SubsKeys(doc.sections[i].subs)
    {
      assert GoodSection(doc.sections[i]);
      NormalizedKeeps(doc.sections[i]);
    }
    SettleReleases(doc);
  }

  lemma NoRepeatsStay(doc: Doc)
    requires NoneRepeats(doc.sections) && NoneReleased(doc.sections)
    ensures AllTight(doc.sections) && NoneReleased(Settle(doc).sections)
  {
    forall i | 0 <= i < |doc.sections|
      ensures TightSubs(doc.sections[i].subs) && SubsKeys(Normalized(doc.sections[i]).subs) == SubsKeys(doc.sections[i].subs)
    {
      NoRepeatsTrims(doc.sections[i].subs);
      NormalizedSettles(doc.sections[i]);
      SettledIff(doc.sections[i]);
    }
    SettleReleases(doc);
  }

  /** Fixing, and fixing again with nothing to promote. `ps` is the document after the first run
      has dropped and promoted. */
  method FixTwice(ls: Body, starts: set<nat>) returns (once: Body, twice: Body, ghost ps: seq<Section>)
    ensures once == Render(Settle(Doc(Parse(ls).prefix, ps))) && AllWellformed(ps)
    ensures starts == {} ==> DropResult(Parse(ls).sections, ps)
    ensures twice == once <==> AllTight(ps) && NoneReleased(Settle(Doc(Parse(ls).prefix, ps)).sections)
    ensures starts == {} && AllBulleted(Parse(ls).sections) ==> (twice == once <==> AllTight(ps))
    ensures starts == {} && NoneRepeats(Parse(ls).sections) ==> twice == once
  {
    ghost var ds, es, qs;
    once, ds, ps := FixChangelogContent(ls, starts);
    twice, es, qs := FixChangelogContent(once, {});
    ParsedWellformed(ls);
    NothingPromotable(es);
    ghost var doc := Doc(Parse(ls).prefix, ps);
    TwiceIsOnceIff(doc, once, es, twice);
    if starts == {} {
      NothingPromotable(ds);
      DroppedStays(Parse(ls).sections, ds, doc);
    }
  }

  lemma DroppedStays(ss: seq<Section>, ds: seq<Section>, doc: Doc)
    requires AllWellformed(ss) && DropResult(ss, ds) && doc.sections == ds
    ensures AllBulleted(ss) ==> NoneReleased(Settle(doc).sections)
    ensures NoneRepeats(ss) ==> AllTight(ds) && NoneReleased(Settle(doc).sections)
  {
    if AllBulleted(ss) {
      BulletedIsGood(ss);
      ItemsStayUnreleased(doc);
    }
    if NoneRepeats(ss) {
      OutlineNoRepeats(ss, ds);
      NoRepeatsStay(doc);
    }
  }

  // ---------- Two documents ----------

  /** One section with two bodies under one title. */
  lemma TwoBodies(h: Line, c: Line, a: Body, b: Body)
    requires h.Release? && c.Category?
    requires NoHead(a, IsRelease) && NoHead(a, IsCategory) && NoHead(b, IsRelease) && NoHead(b, IsCategory)
    ensures var doc := Parse([h, c] + a + [c] + b);
            && doc.prefix == []
            && doc.sections == [Section(h, [], [Sub(c.name, a, 3), Sub(c.name, b, 4 + |a|)])]
  {
    var body := [c] + a + ([c] + b);
    assert [h, c] + a + [c] + b == [h] + body + [] && [c] + b == [c] + b + [];
    CutGroup(h, body, [], IsRelease, 1);
    CutGroup(c, a, [c] + b, IsCategory, 2);
    CutGroup(c, b, [], IsCategory, 3 + |a|);
    var groups := [Group(c, a, 3), Group(c, b, 4 + |a|)];
    assert CutAt(body, IsCategory, 2) == Cuts([], groups);
    assert SubsOf(groups) == [Sub(c.name, a, 3), Sub(c.name, b, 4 + |a|)];
    assert SectionsOf([Group(h, body, 2)]) == [SectionOf(Group(h, body, 2))];
  }

  const REPEATED: Body := [Release(Unreleased, "## [Unreleased]"), Category("Added", "")]
    + [Bullet("- a"), Prose("  b")] + [Category("Added", "")] + [Bullet("- c")]

  /** A repeated heading makes a second run differ: the first item does not end in its bullet
      line, so the first run puts a blank line before the second, which the second run takes out
      again. */
  lemma RepeatedHeadingDiffers()
    ensures var doc := Parse(REPEATED);
            var once := Render(Settle(doc));
            && AllBulleted(doc.sections) && NoneReleased(doc.sections)
            && NoneReleased(Parse(once).sections) && Render(Settle(Parse(once))) != once
  {
    var doc := Parse(REPEATED);
    var once := Render(Settle(doc));
    ParsedWellformed(REPEATED);
    RepeatedIsLoose();
    BulletedIsGood(doc.sections);
    ItemsStayUnreleased(doc);
    SettledWellformed(doc);
    WrittenKeys(Settle(doc));
    TrimmedReleases(Parse(once), Settle(doc));
    ParsedWellformed(once);
    NothingDropped(Parse(once).sections);
    TwiceIsOnceIff(doc, once, Parse(once).sections, Render(Settle(Parse(once))));
  }

  lemma RepeatedIsLoose()
    ensures var ss := Parse(REPEATED).sections; AllBulleted(ss) && NoneReleased(ss) && !AllTight(ss)
  {
    var a, b := [Bullet("- a"), Prose("  b")], [Bullet("- c")];
    TwoBodies(Release(Unreleased, "## [Unreleased]"), Category("Added", ""), a, b);
    var ss := Parse(REPEATED).sections;
    assert ss[0].subs == [Sub("Added", a, 3), Sub("Added", b, 6)];
    TrimKeeps(a);
    TrimKeeps(b);
    RepeatedBodies(a, b, ss[0].subs);
    assert KeysOf(ss, IsReleased) == {};
  }

  lemma RepeatedBodies(a: Body, b: Body, subs: seq<Sub>)
    requires a == [Bullet("- a"), Prose("  b")] && b == [Bullet("- c")]
    requires subs == [Sub("Added", a, 3), Sub("Added", b, 6)] && forall j :: 0 <= j < |subs| ==> Bulleted(subs[j])
    ensures !TightSubs(subs)
  {
    WholeIff(a);
    WholeIff(b);
    ItemBodiesTightIff(subs);
    assert subs[0].title == subs[1].title && Compact(subs[1].lines) != [] && !EndsAtBullet(Compact(subs[0].lines));
  }

  lemma NothingDropped(ss: seq<Section>)
    requires AllWellformed(ss) && NoneReleased(ss)
    ensures DropResult(ss, ss)
  {
  }

  const PROSE_LED: Body := [Release(Unreleased, "## [Unreleased]"), Category("Added", "")]
    + [Bullet("- a")] + [Category("Added", "")] + [Prose("b")]

  /** A body that opens with prose takes the item before it along: the item is lost. */
  lemma ProseTakesItem()
    ensures var doc := Parse(PROSE_LED);
            && [Bullet("- a")] in KeysOf(doc.sections, Any)
            && [Bullet("- a")] !in KeysOf(Parse(Render(Settle(doc))).sections, Any)
  {
    var a, b := [Bullet("- a")], [Prose("b")];
    var doc := Parse(PROSE_LED);
    TwoBodies(Release(Unreleased, "## [Unreleased]"), Category("Added", ""), a, b);
    var s := doc.sections[0];
    ItemsOfSeg(a);
    assert s.subs[0] in s.subs && a in Items(s.subs[0].lines) && a in SubsKeys(s.subs) && s in doc.sections;
    ParsedWellformed(PROSE_LED);
    SettledWellformed(doc);
    WrittenKeys(Settle(doc));
    ProseMerged(s, a, b);
    var ns := NormalizedAll(doc.sections);
    SortedMember(ns);
    forall t <- Settle(doc).sections ensures a !in SubsKeys(t.subs) { assert t in ns && t == Normalized(s); }
  }

  lemma ItemsOfSeg(s: Body)
    requires IsSeg(s) && Trimmed(s)
    ensures Items(s) == [s]
  {
    SegsOfSeg(s);
    TrimKeeps(s);
  }

  lemma ProseMerged(s: Section, a: Body, b: Body)
    requires a == [Bullet("- a")] && b == [Prose("b")] && s.subs == [Sub("Added", a, 3), Sub("Added", b, 5)]
    ensures a !in SubsKeys(Normalized(s).subs)
  {
    var merged, both := MergeSubs(s.subs), a + [EMPTY] + b;
    TrimKeeps(a);
    TrimKeeps(b);
    WholeIff(a);
    WholeIff(b);
    MergedItems(s.subs, a, b);
    Orderings();
    SortSorts(merged, ByTitle());
    forall m <- Normalized(s).subs ensures Items(m.lines) == [both] {
      assert m in multiset(Normalized(s).subs) && m in multiset(merged);
    }
  }

  lemma {:induction false} MergedItems(subs: seq<Sub>, a: Body, b: Body)
    requires a == [Bullet("- a")] && b == [Prose("b")] && subs == [Sub("Added", a, 3), Sub("Added", b, 5)]
    requires Compact(a) == a && Compact(b) == b
    ensures forall m <- MergeSubs(subs) :: Items(m.lines) == [a + [EMPTY] + b]
  {
    var merged := MergeSubs(subs);
    MergeIsJoin(subs);
    forall m <- merged ensures Items(m.lines) == [a + [EMPTY] + b] {
      var j :| 0 <= j < |merged| && merged[j] == m;
      assert JoinedSub(subs, merged[j]);
      TwoJoined(subs, a, b, m.title);
    }
  }

  lemma {:induction false} BodiesOfTwo(x: Sub, y: Sub, title: string)
    ensures Bodies([x, y], title)
         == (if Under(x, title) then [Compact(x.lines)] else []) + (if Under(y, title) then [Compact(y.lines)] else [])
  {
    BodiesLast([], x, title);
    BodiesLast([x], y, title);
    assert [] + [x] == [x] && [x] + [y] == [x, y];
  }

  lemma {:induction false} TwoJoined(subs: seq<Sub>, a: Body, b: Body, title: string)
    requires a == [Bullet("- a")] && b == [Prose("b")] && subs == [Sub("Added", a, 3), Sub("Added", b, 5)]
    requires Compact(a) == a && Compact(b) == b && Bodies(subs, title) != []
    ensures Items(JoinAll(Bodies(subs, title))) == [a + [EMPTY] + b]
  {
    BodiesOfTwo(subs[0], subs[1], title);
    ProseJoined(a, b);
  }

  lemma ProseJoined(a: Body, b: Body)
    requires a == [Bullet("- a")] && b == [Prose("b")] && Compact(a) == a
    ensures Items(JoinAll([a] + [b])) == [a + [EMPTY] + b]
  {
    JoinOne([a]);
    MoreInit([a], b);
    TrimKeeps(a);
    TrimKeeps(b);
    ItemsOfSeg(a + [EMPTY] + b);
  }
}

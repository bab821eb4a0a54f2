/** Moving new bullets from released sections to Unreleased: the middle part of
    `fixChangelogContent` in scripts/fix-changelogs.ts. */
module ChangelogPromote {
  import opened ChangelogItems
  import opened ChangelogText
  import opened ChangelogMerge
  import opened ChangelogFix
  import opened Common

  // ---------- Taking items out ----------

  function Chosen(items: seq<Item>, starts: set<nat>): seq<Body> {
    if items == [] then []
    else (if items[0].start in starts then [Trim(items[0].lines)] else []) + Chosen(items[1..], starts)
  }

  /** The keys of a body's items that begin on one of the lines `starts`. */
  function ChosenKeys(s: Sub, starts: set<nat>): set<Body> {
    set k | k in Chosen(ItemsOf(s.lines, s.first), starts)
  }

  predicate IsKey(k: Body) {
    IsSeg(k) && Trim(k) == k && NoHead(k, IsRelease) && NoHead(k, IsCategory)
  }

  lemma {:induction false} ChosenMember(items: seq<Item>, starts: set<nat>, k: Body)
    ensures k in Chosen(items, starts) <==>
            exists i :: 0 <= i < |items| && items[i].start in starts && Trim(items[i].lines) == k
    decreases items
  {
    if items != [] {
      ChosenMember(items[1..], starts, k);
      if k in Chosen(items[1..], starts) {
        var i :| 0 <= i < |items[1..]| && items[1..][i].start in starts && Trim(items[1..][i].lines) == k;
        assert items[i + 1] == items[1..][i];
      }
      if i :| 0 <= i < |items| && items[i].start in starts && Trim(items[i].lines) == k {
        if i > 0 { assert items[1..][i - 1] == items[i]; }
      }
    }
  }

  /** The keys of the other items, in order. */
  function Unchosen(items: seq<Item>, starts: set<nat>): seq<Body> {
    if items == [] then []
    else (if items[0].start in starts then [] else [Trim(items[0].lines)]) + Unchosen(items[1..], starts)
  }

  lemma {:induction false} KeptUnchosen(items: seq<Item>, starts: set<nat>, sel: Item -> bool)
    requires forall it: Item :: sel(it) <==> it.start in starts
    ensures TrimAll(Kept(items, sel)) == Unchosen(items, starts)
    decreases items
  {
    if items != [] {
      KeptUnchosen(items[1..], starts, sel);
      if items[0].start !in starts { TrimAllCat([items[0].lines], Kept(items[1..], sel)); }
    }
  }

  lemma {:induction false} AllUnchosen(segs: seq<Body>, start: nat, starts: set<nat>)
    requires Chosen(ItemsFrom(segs, start), starts) == []
    ensures Unchosen(ItemsFrom(segs, start), starts) == TrimAll(segs)
    decreases segs
  {
    if segs != [] {
      var rest := ItemsFrom(segs[1..], start + |segs[0]|);
      assert ItemsFrom(segs, start)[1..] == rest;
      AllUnchosen(segs[1..], start + |segs[0]|, starts);
    }
  }

  /** What is left are the items that are not taken, in order; with what is taken they make up
      what was there. */
  ghost predicate Stripped(s: Sub, t: Sub, starts: set<nat>) {
    && t.title == s.title
    && Items(t.lines) == Unchosen(ItemsOf(s.lines, s.first), starts)
    && SubKeys(s) == SubKeys(t) + ChosenKeys(s, starts)
    && (Chosen(ItemsOf(s.lines, s.first), starts) == [] ==> t == s)
    && (forall l <- t.lines :: l in s.lines)
    && (Bulleted(s) ==> Bulleted(t))
  }

  lemma {:induction false} ChosenAreKeys(s: Sub, starts: set<nat>)
    requires Headless(s)
    ensures forall k <- Chosen(ItemsOf(s.lines, s.first), starts) :: IsKey(k)
  {
    var items, segs := ItemsOf(s.lines, s.first), Segs(s.lines).segs;
    ItemsFromKeys(segs, s.first + |Segs(s.lines).lead|);
    SegsAreSegs(s.lines);
    forall k <- Chosen(items, starts) ensures IsKey(k) {
      ChosenMember(items, starts, k);
      var i :| 0 <= i < |items| && items[i].start in starts && Trim(items[i].lines) == k;
      assert items[i].lines == segs[i] && IsSeg(segs[i]);
      TrimSeg(segs[i]);
      TrimTwice(segs[i]);
      SegLines(s.lines, i);
      InNoHead(k, s.lines, IsRelease);
      InNoHead(k, s.lines, IsCategory);
    }
  }

  lemma {:induction false} SegLines(ls: Body, i: nat)
    requires i < |Segs(ls).segs|
    ensures forall l <- Trim(Segs(ls).segs[i]) :: l in ls
  {
    SegsFlat(ls);
    FlatHas(Segs(ls).segs, i);
    var pre, post := TrimParts(Segs(ls).segs[i]);
    forall l <- Trim(Segs(ls).segs[i]) ensures l in ls {
      assert l in Segs(ls).segs[i];
      assert l in Flat(Segs(ls).segs);
    }
  }

  lemma {:induction false} FlatHas(segs: seq<Body>, i: nat)
    requires i < |segs|
    ensures forall l <- segs[i] :: l in Flat(segs)
    decreases segs
  {
    if i > 0 { FlatHas(segs[1..], i - 1); }
  }

  lemma {:induction false} KeptOrChosen(s: Sub, starts: set<nat>, sel: Item -> bool, k: Body)
    requires forall it: Item :: sel(it) <==> it.start in starts
    ensures k in Items(s.lines)
       <==> k in TrimAll(Kept(ItemsOf(s.lines, s.first), sel)) || k in Chosen(ItemsOf(s.lines, s.first), starts)
  {
    var items := ItemsOf(s.lines, s.first);
    KeyAmong(s.lines, s.first, k);
    ChosenMember(items, starts, k);
    KeptKey(items, sel, k);
  }

  lemma {:induction false} StrippedKeys(s: Sub, starts: set<nat>, gone: set<nat>, sel: Item -> bool)
    requires forall it: Item :: sel(it) <==> it.start in starts
    requires IsRange(gone, ItemsOf(s.lines, s.first), sel)
    ensures SubKeys(s) == SubKeys(s.(lines := Filter(s.lines, s.first, gone))) + ChosenKeys(s, starts)
  {
    FilterRemovesItems(s.lines, s.first, gone, sel);
    forall k ensures k in SubKeys(s)
                <==> k in SubKeys(s.(lines := Filter(s.lines, s.first, gone))) || k in ChosenKeys(s, starts)
    { KeptOrChosen(s, starts, sel, k); }
  }

  method StripSub(s: Sub, starts: set<nat>) returns (t: Sub, keys: seq<Body>)
    ensures Stripped(s, t, starts) && keys == Chosen(ItemsOf(s.lines, s.first), starts)
  {
    var items := ItemsOf(s.lines, s.first);
    keys := Chosen(items, starts);
    if keys == [] {
      AllUnchosen(Segs(s.lines).segs, s.first + |Segs(s.lines).lead|, starts);
      t := s;
      return;
    }
    var sel := (it: Item) => it.start in starts;
    var gone := LineRangeSet(items, sel);
    StrippedKeys(s, starts, gone, sel);
    FilterRemovesItems(s.lines, s.first, gone, sel);
    KeptUnchosen(items, starts, sel);
    FilterIn(s.lines, s.first, gone);
    if Bulleted(s) { FilterStarts(s.lines, s.first, gone, sel); }
    t := s.(lines := Filter(s.lines, s.first, gone));
  }

  // ---------- Putting items in ----------

  function FindLast(subs: seq<Sub>, title: string): (i: nat)
    ensures i <= |subs| && (i < |subs| ==> subs[i].title == title)
    ensures forall j :: (if i < |subs| then i < j else 0 <= j) && j < |subs| ==> subs[j].title != title
  {
    if subs == [] then 0
    else if subs[|subs| - 1].title == title then |subs| - 1
    else
      var i := FindLast(subs[..|subs| - 1], title);
      if i == |subs| - 1 then |subs| else i
  }

  lemma KeyItems(k: Body)
    requires IsKey(k)
    ensures Items(k) == [k]
  {
    SegsOfSeg(k);
  }

  /** `b` is `a` with the keys of `keys` added, and still well formed. */
  ghost predicate Added(a: Sub, b: Sub, keys: set<Body>) {
    && b.title == a.title && SubKeys(b) == SubKeys(a) + keys
    && (Headless(a) ==> Headless(b)) && (Bulleted(a) ==> Bulleted(b))
  }

  method PutOne(s: Sub, key: Body) returns (t: Sub)
    requires IsKey(key)
    ensures Added(s, t, {key})
  {
    t := s;
    if key in Items(s.lines) { return; }
    t := Sub(s.title, AppendLines(s.lines, key), 0);
    KeyItems(key);
    AppendAtBullet(s.lines, key);
    TrimTwice(key);
    if Headless(s) { AppendHeadless(s.lines, key); }
    if Bulleted(s) { AppendBulleted(s.lines, key); }
  }

  lemma AppendHeadless(target: Body, lines: Body)
    requires NoHead(target, IsRelease) && NoHead(target, IsCategory) && Plain(lines)
    ensures NoHead(AppendLines(target, lines), IsRelease) && NoHead(AppendLines(target, lines), IsCategory)
  {
    TrimPlain(target);
    TrimKeeps(lines);
  }

  lemma AppendBulleted(target: Body, key: Body)
    requires IsKey(key) && StartsAtBullet(Trim(target))
    ensures StartsAtBullet(Trim(AppendLines(target, key)))
  {
    var existing := Trim(target);
    TrimTwice(target);
    TrimTwice(key);
    if existing != [] { TrimKeeps(existing + Separator(existing, key) + key); }
  }

  method PutAll(s: Sub, keys: seq<Body>) returns (t: Sub)
    requires forall k <- keys :: IsKey(k)
    ensures Added(s, t, set k | k in keys)
  {
    t := s;
    var i := 0;
    while i < |keys|
      invariant 0 <= i <= |keys| && Added(s, t, set k | k in keys[..i])
    {
      TakeMore(keys, i);
      t := PutOne(t, keys[i]);
      i := i + 1;
    }
    TakeAll(keys, i);
  }

  method PutItems(subs: seq<Sub>, title: string, keys: seq<Body>) returns (more: seq<Sub>)
    requires forall k <- keys :: IsKey(k)
    ensures SubsKeys(more) == SubsKeys(subs) + set k | k in keys
    ensures SubsTags(more) == SubsTags(subs) + set k | k in keys :: (title, k)
    ensures GoodSubs(subs) ==> GoodSubs(more)
    ensures HeadlessSubs(subs) ==> HeadlessSubs(more)
  {
    var i := FindLast(subs, title);
    var grown := if i == |subs| then subs + [Sub(title, [], 0)] else subs;
    var target := PutAll(grown[i], keys);
    more := grown[i := target];
    PutOneSub(grown, i, target, set k | k in keys);
    PutTags(grown, i, target, keys);
    if i == |subs| { EmptySub(subs, title); }
  }

  lemma PutOneSub(subs: seq<Sub>, i: nat, target: Sub, keys: set<Body>)
    requires i < |subs| && Added(subs[i], target, keys)
    ensures SubsKeys(subs[i := target]) == SubsKeys(subs) + keys
    ensures GoodSubs(subs) ==> GoodSubs(subs[i := target])
    ensures HeadlessSubs(subs) ==> HeadlessSubs(subs[i := target])
  {
    PutKeys(subs, i, target, keys);
    if HeadlessSubs(subs) { PutHeadless(subs, i, target); }
    if GoodSubs(subs) { PutGoodSub(subs, i, target); }
  }

  lemma PutTags(subs: seq<Sub>, i: nat, target: Sub, keys: seq<Body>)
    requires i < |subs| && Added(subs[i], target, set k | k in keys)
    ensures SubsTags(subs[i := target]) == SubsTags(subs) + set k | k in keys :: (subs[i].title, k)
  {
    var more: set<Tag> := set k | k in keys :: (subs[i].title, k);
    forall k ensures k in Items(target.lines) <==> k in Items(subs[i].lines) || k in keys {
      assert k in SubKeys(target) <==> k in SubKeys(subs[i]) + set k | k in keys;
    }
    SubsTagsUpdate(subs, i, target, more);
  }

  lemma PutKeys(subs: seq<Sub>, i: nat, target: Sub, keys: set<Body>)
    requires i < |subs| && SubKeys(target) == SubKeys(subs[i]) + keys
    ensures SubsKeys(subs[i := target]) == SubsKeys(subs) + keys
  {
    SubsKeysUpdate(subs, i, target);
    Regroup(SubsKeys(subs[..i]), SubKeys(subs[i]), SubsKeys(subs[i + 1..]), keys);
  }

  lemma PutHeadless(subs: seq<Sub>, i: nat, target: Sub)
    requires i < |subs| && HeadlessSubs(subs) && Headless(target)
    ensures HeadlessSubs(subs[i := target])
  {
  }

  lemma PutGoodSub(subs: seq<Sub>, i: nat, target: Sub)
    requires i < |subs| && GoodSubs(subs) && Headless(target) && Bulleted(target)
    ensures GoodSubs(subs[i := target])
  {
  }

  lemma EmptySub(subs: seq<Sub>, title: string)
    ensures var grown := subs + [Sub(title, [], 0)];
            && SubsKeys(grown) == SubsKeys(subs) && SubsTags(grown) == SubsTags(subs)
            && (GoodSubs(subs) ==> GoodSubs(grown))
            && (HeadlessSubs(subs) ==> HeadlessSubs(grown))
  {
    SubsKeysCat(subs, [Sub(title, [], 0)]);
    SubsKeysOne(Sub(title, [], 0));
    SubsTagsCat(subs, [Sub(title, [], 0)]);
    SubsTagsOne(Sub(title, [], 0));
    assert Items([]) == [];
    TrimKeeps([]);
  }

  // ---------- Promoting ----------

  ghost predicate StrippedSubs(a: seq<Sub>, b: seq<Sub>, starts: set<nat>) {
    |a| == |b| && (a != [] ==> Stripped(a[|a| - 1], b[|a| - 1], starts) && StrippedSubs(a[..|a| - 1], b[..|a| - 1], starts))
  }

  lemma {:induction false} StrippedAt(a: seq<Sub>, b: seq<Sub>, starts: set<nat>, j: nat)
    requires StrippedSubs(a, b, starts) && j < |a|
    ensures Stripped(a[j], b[j], starts)
    decreases a
  {
    if j < |a| - 1 { StrippedAt(a[..|a| - 1], b[..|a| - 1], starts, j); }
  }

  function ChosenTags(s: Sub, starts: set<nat>): set<Tag> {
    set k | k in Chosen(ItemsOf(s.lines, s.first), starts) :: (s.title, k)
  }

  /** The same for all bodies, each key with its category. */
  function ChosenTagsFrom(subs: seq<Sub>, starts: set<nat>): set<Tag> {
    set s, k | s in subs && k in ChosenKeys(s, starts) :: (s.title, k)
  }

  lemma ChosenTagAt(subs: seq<Sub>, starts: set<nat>, title: string, k: Body)
    ensures (title, k) in ChosenTagsFrom(subs, starts)
       <==> exists s :: s in subs && s.title == title && k in ChosenKeys(s, starts)
  {
  }

  lemma ChosenTagsMore(subs: seq<Sub>, s: Sub, starts: set<nat>)
    ensures ChosenTagsFrom(subs + [s], starts) == ChosenTagsFrom(subs, starts) + ChosenTags(s, starts)
  {
    assert s in subs + [s];
    forall title, k
      ensures (title, k) in ChosenTagsFrom(subs + [s], starts)
         <==> (title, k) in ChosenTagsFrom(subs, starts) + ChosenTags(s, starts)
    {
      ChosenTagAt(subs + [s], starts, title, k);
      ChosenTagAt(subs, starts, title, k);
    }
  }

  /** All the keys a section gives up. */
  function ChosenFrom(subs: seq<Sub>, starts: set<nat>): set<Body> {
    set s, k | s in subs && k in ChosenKeys(s, starts) :: k
  }

  lemma {:induction false} StrippedSubsKeys(a: seq<Sub>, b: seq<Sub>, starts: set<nat>)
    requires StrippedSubs(a, b, starts)
    ensures SubsKeys(a) == SubsKeys(b) + ChosenFrom(a, starts)
  {
    forall k ensures k in SubsKeys(a) <==> k in SubsKeys(b) + ChosenFrom(a, starts) {
      if k in SubsKeys(a) {
        var s :| s in a && k in Items(s.lines);
        var j :| 0 <= j < |a| && a[j] == s;
        StrippedAt(a, b, starts, j);
        assert k in SubKeys(a[j]) && b[j] in b;
        assert k in SubKeys(b[j]) || k in ChosenKeys(a[j], starts);
      }
      if k in SubsKeys(b) {
        var t :| t in b && k in Items(t.lines);
        var j :| 0 <= j < |b| && b[j] == t;
        StrippedAt(a, b, starts, j);
        assert k in SubKeys(b[j]) && k in SubKeys(a[j]) && a[j] in a;
      }
      if k in ChosenFrom(a, starts) {
        var s :| s in a && k in ChosenKeys(s, starts);
        var j :| 0 <= j < |a| && a[j] == s;
        StrippedAt(a, b, starts, j);
        assert k in SubKeys(a[j]);
      }
    }
  }

  /** The keys a section keeps. */
  function LeftIn(subs: seq<Sub>, starts: set<nat>): set<Body> {
    set s, k | s in subs && k in Unchosen(ItemsOf(s.lines, s.first), starts) :: k
  }

  lemma {:induction false} StrippedSubsLeft(a: seq<Sub>, b: seq<Sub>, starts: set<nat>)
    requires StrippedSubs(a, b, starts)
    ensures SubsKeys(b) == LeftIn(a, starts)
  {
    forall k ensures k in SubsKeys(b) <==> k in LeftIn(a, starts) {
      if k in SubsKeys(b) {
        var t :| t in b && k in Items(t.lines);
        var j :| 0 <= j < |b| && b[j] == t;
        StrippedAt(a, b, starts, j);
        assert k in Unchosen(ItemsOf(a[j].lines, a[j].first), starts) && a[j] in a;
      }
      if k in LeftIn(a, starts) {
        var s :| s in a && k in Unchosen(ItemsOf(s.lines, s.first), starts);
        var j :| 0 <= j < |a| && a[j] == s;
        StrippedAt(a, b, starts, j);
        assert k in Items(b[j].lines) && b[j] in b;
      }
    }
  }

  lemma {:induction false} StrippedGood(a: seq<Sub>, b: seq<Sub>, starts: set<nat>)
    requires StrippedSubs(a, b, starts) && HeadlessSubs(a)
    ensures HeadlessSubs(b) && (GoodSubs(a) ==> GoodSubs(b))
  {
    forall j | 0 <= j < |a| ensures Headless(b[j]) && (Bulleted(a[j]) ==> Bulleted(b[j])) {
      StrippedAt(a, b, starts, j);
      StillHeadless(a[j], b[j]);
    }
  }

  lemma ChosenMore(subs: seq<Sub>, s: Sub, starts: set<nat>)
    ensures ChosenFrom(subs + [s], starts) == ChosenFrom(subs, starts) + ChosenKeys(s, starts)
  {
    assert s in subs + [s];
    forall k <- ChosenFrom(subs, starts) ensures k in ChosenFrom(subs + [s], starts) {
      var t :| t in subs && k in ChosenKeys(t, starts);
      assert t in subs + [s];
    }
  }

  /** One body: what it gives up goes to the target. */
  ghost predicate Gave(target0: seq<Sub>, target: seq<Sub>, keys: set<Body>, tags: set<Tag>) {
    && SubsKeys(target) == SubsKeys(target0) + keys && SubsTags(target) == SubsTags(target0) + tags
    && (GoodSubs(target0) ==> GoodSubs(target)) && (HeadlessSubs(target0) ==> HeadlessSubs(target))
    && (keys == {} ==> target == target0)
  }

  method PromoteSub(sub: Sub, starts: set<nat>, target0: seq<Sub>) returns (left: Sub, target: seq<Sub>)
    requires Headless(sub)
    ensures Stripped(sub, left, starts)
    ensures Gave(target0, target, ChosenKeys(sub, starts), ChosenTags(sub, starts))
  {
    var keys;
    left, keys := StripSub(sub, starts);
    ChosenAreKeys(sub, starts);
    target := target0;
    if keys != [] {
      assert keys[0] in ChosenKeys(sub, starts);
      target := PutItems(target, sub.title, keys);
    }
  }

  lemma GaveMore(a: seq<Sub>, b: seq<Sub>, c: seq<Sub>, x: set<Body>, y: set<Body>,
                 v: set<Tag>, w: set<Tag>)
    requires Gave(a, b, x, v) && Gave(b, c, y, w)
    ensures Gave(a, c, x + y, v + w)
  {
  }

  lemma {:induction false} NothingChosen(a: seq<Sub>, b: seq<Sub>, starts: set<nat>)
    requires StrippedSubs(a, b, starts) && ChosenFrom(a, starts) == {}
    ensures a == b
  {
    forall j | 0 <= j < |a| ensures a[j] == b[j] {
      StrippedAt(a, b, starts, j);
      NoneOf(a, starts, j);
    }
  }

  lemma {:induction false} NoneOf(subs: seq<Sub>, starts: set<nat>, j: nat)
    requires j < |subs| && ChosenFrom(subs, starts) == {}
    ensures Chosen(ItemsOf(subs[j].lines, subs[j].first), starts) == []
  {
    var keys := Chosen(ItemsOf(subs[j].lines, subs[j].first), starts);
    assert subs[j] in subs;
    forall k ensures k !in keys {
      assert k in keys <==> k in ChosenKeys(subs[j], starts);
      assert k in ChosenKeys(subs[j], starts) ==> k in ChosenFrom(subs, starts);
    }
    HasOne(keys);
  }

  lemma HasOne(keys: seq<Body>)
    ensures keys == [] || (|keys| > 0 && keys[0] in keys)
  {
  }

  /** Where the loop over a section's bodies is. */
  ghost predicate StrippedSoFar(subs: seq<Sub>, out: seq<Sub>, starts: set<nat>, target0: seq<Sub>, target: seq<Sub>) {
    && |out| <= |subs| && StrippedSubs(subs[..|out|], out, starts)
    && Gave(target0, target, ChosenFrom(subs[..|out|], starts), ChosenTagsFrom(subs[..|out|], starts))
  }

  /** All a section's bodies in turn. */
  method PromoteFrom(s: Section, starts: set<nat>, target0: seq<Sub>) returns (t: Section, target: seq<Sub>)
    requires HeadlessSubs(s.subs)
    ensures t == s.(subs := t.subs) && StrippedSubs(s.subs, t.subs, starts)
    ensures Gave(target0, target, ChosenFrom(s.subs, starts), ChosenTagsFrom(s.subs, starts))
  {
    var subs: seq<Sub> := [];
    target := target0;
    PromoteStart(s.subs, starts, target);
    while |subs| < |s.subs|
      invariant StrippedSoFar(s.subs, subs, starts, target0, target)
    {
      ghost var before := target;
      var left;
      left, target := PromoteSub(s.subs[|subs|], starts, target);
      PromoteStep(s.subs, subs, left, starts, target0, before, target);
      subs := subs + [left];
    }
    TakeAll(s.subs, |subs|);
    t := s.(subs := subs);
  }

  lemma PromoteStart(subs: seq<Sub>, starts: set<nat>, target: seq<Sub>)
    ensures StrippedSoFar(subs, [], starts, target, target)
  {
    assert ChosenFrom(subs[..0], starts) == {} && ChosenTagsFrom(subs[..0], starts) == {};
  }

  lemma PromoteStep(subs: seq<Sub>, out: seq<Sub>, t: Sub, starts: set<nat>,
                    target0: seq<Sub>, before: seq<Sub>, target: seq<Sub>)
    requires |out| < |subs| && StrippedSoFar(subs, out, starts, target0, before) && Stripped(subs[|out|], t, starts)
    requires Gave(before, target, ChosenKeys(subs[|out|], starts), ChosenTags(subs[|out|], starts))
    ensures StrippedSoFar(subs, out + [t], starts, target0, target)
  {
    var j := |out|;
    TakeMore(subs, j);
    ChosenMore(subs[..j], subs[j], starts);
    ChosenTagsMore(subs[..j], subs[j], starts);
    GaveMore(target0, before, target, ChosenFrom(subs[..j], starts), ChosenKeys(subs[j], starts),
             ChosenTagsFrom(subs[..j], starts), ChosenTags(subs[j], starts));
    StrippedMore(subs[..j], out, starts, subs[j], t);
  }

  lemma {:induction false} StrippedMore(a: seq<Sub>, b: seq<Sub>, starts: set<nat>, s: Sub, t: Sub)
    requires StrippedSubs(a, b, starts)
    requires Stripped(s, t, starts)
    ensures StrippedSubs(a + [s], b + [t], starts)
  {
    assert (a + [s])[..|a|] == a && (b + [t])[..|a|] == b;
  }

  // ---------- All sections ----------

  const NEW_UNRELEASED: Section := Section(Release(Unreleased, "## [Unreleased]"), [], [])

  /** The keys of the items of released sections that begin on one of the lines `starts`. */
  function Promotable(ss: seq<Section>, starts: set<nat>): set<Body> {
    set s, k | s in ss && IsReleased(s) && k in ChosenFrom(s.subs, starts) :: k
  }

  /** Each with the category it comes from. */
  function PromotableTags(ss: seq<Section>, starts: set<nat>): set<Tag> {
    set s, t | s in ss && IsReleased(s) && t in ChosenTagsFrom(s.subs, starts) :: t
  }

  lemma PromotableTagsCat(a: seq<Section>, b: seq<Section>, starts: set<nat>)
    ensures PromotableTags(a + b, starts) == PromotableTags(a, starts) + PromotableTags(b, starts)
  {
    forall t
      ensures t in PromotableTags(a + b, starts) <==> t in PromotableTags(a, starts) + PromotableTags(b, starts)
    {
      if t in PromotableTags(a, starts) {
        var s :| s in a && IsReleased(s) && t in ChosenTagsFrom(s.subs, starts);
        assert s in a + b;
      }
      if t in PromotableTags(b, starts) {
        var s :| s in b && IsReleased(s) && t in ChosenTagsFrom(s.subs, starts);
        assert s in a + b;
      }
    }
  }

  lemma PromotableTagsOne(s: Section, starts: set<nat>)
    ensures PromotableTags([s], starts) == if IsReleased(s) then ChosenTagsFrom(s.subs, starts) else {}
  {
    assert s in [s];
  }

  lemma PromotableCat(a: seq<Section>, b: seq<Section>, starts: set<nat>)
    ensures Promotable(a + b, starts) == Promotable(a, starts) + Promotable(b, starts)
  {
    forall k ensures k in Promotable(a + b, starts) <==> k in Promotable(a, starts) + Promotable(b, starts) {
      if k in Promotable(a, starts) {
        var s :| s in a && IsReleased(s) && k in ChosenFrom(s.subs, starts);
        assert s in a + b;
      }
      if k in Promotable(b, starts) {
        var s :| s in b && IsReleased(s) && k in ChosenFrom(s.subs, starts);
        assert s in a + b;
      }
    }
  }

  lemma PromotableOne(s: Section, starts: set<nat>)
    ensures Promotable([s], starts) == if IsReleased(s) then ChosenFrom(s.subs, starts) else {}
  {
    assert s in [s];
  }

  ghost predicate ThinnedOne(s: Section, t: Section, starts: set<nat>) {
    if IsUnreleased(s) then t == s else t == s.(subs := t.subs) && StrippedSubs(s.subs, t.subs, starts)
  }

  /** The sections after the released ones have given up what was chosen. */
  ghost predicate Thinned(ss: seq<Section>, out: seq<Section>, starts: set<nat>) {
    |ss| == |out| && forall i :: 0 <= i < |ss| ==> ThinnedOne(ss[i], out[i], starts)
  }

  lemma ThinnedMore(ss: seq<Section>, out: seq<Section>, starts: set<nat>, s: Section, t: Section)
    requires Thinned(ss, out, starts) && ThinnedOne(s, t, starts)
    ensures Thinned(ss + [s], out + [t], starts)
  {
  }

  lemma Swap(a: set<Body>, x: set<Body>, b: set<Body>, y: set<Body>)
    ensures (a + x) + (b + y) == (a + b) + (x + y)
  {
  }

  lemma {:induction false} ThinnedKeys(ss: seq<Section>, out: seq<Section>, starts: set<nat>)
    requires Thinned(ss, out, starts)
    ensures KeysOf(ss, IsReleased) == KeysOf(out, IsReleased) + Promotable(ss, starts)
    ensures KeysOf(ss, IsUnreleased) == KeysOf(out, IsUnreleased)
    decreases ss
  {
    if ss == [] {
      assert KeysOf(ss, IsReleased) == {} && Promotable(ss, starts) == {};
    } else {
      var k := |ss| - 1;
      ThinnedKeys(ss[..k], out[..k], starts);
      ThinnedLast(ss[..k], out[..k], ss[k], out[k], starts);
      InitAndLast(ss);
      InitAndLast(out);
    }
  }

  lemma ThinnedLast(ss: seq<Section>, out: seq<Section>, s: Section, t: Section, starts: set<nat>)
    requires ThinnedOne(s, t, starts)
    requires KeysOf(ss, IsReleased) == KeysOf(out, IsReleased) + Promotable(ss, starts)
    requires KeysOf(ss, IsUnreleased) == KeysOf(out, IsUnreleased)
    ensures KeysOf(ss + [s], IsReleased) == KeysOf(out + [t], IsReleased) + Promotable(ss + [s], starts)
    ensures KeysOf(ss + [s], IsUnreleased) == KeysOf(out + [t], IsUnreleased)
  {
    SplitLast(ss, s);
    SplitLast(out, t);
    PromotableCat(ss, [s], starts);
    PromotableOne(s, starts);
    if IsReleased(s) {
      StrippedSubsKeys(s.subs, t.subs, starts);
      Swap(KeysOf(out, IsReleased), Promotable(ss, starts), SubsKeys(t.subs), ChosenFrom(s.subs, starts));
    }
  }

  lemma SplitLast(ss: seq<Section>, s: Section)
    ensures KeysOf(ss + [s], IsReleased) == KeysOf(ss, IsReleased) + (if IsReleased(s) then SubsKeys(s.subs) else {})
    ensures KeysOf(ss + [s], IsUnreleased) == KeysOf(ss, IsUnreleased) + (if IsUnreleased(s) then SubsKeys(s.subs) else {})
  {
    KeysOfCat(ss, [s], IsReleased);
    KeysOfCat(ss, [s], IsUnreleased);
    KeysOfOne(s, IsReleased);
    KeysOfOne(s, IsUnreleased);
  }

  lemma ThinnedGood(ss: seq<Section>, out: seq<Section>, starts: set<nat>)
    requires Thinned(ss, out, starts) && AllWellformed(ss)
    ensures AllWellformed(out) && (GoodSections(ss) ==> GoodSections(out))
  {
    forall i | 0 <= i < |ss| ensures Wellformed(out[i]) && (GoodSection(ss[i]) ==> GoodSection(out[i])) {
      assert Wellformed(ss[i]);
      if IsReleased(ss[i]) { StrippedGood(ss[i].subs, out[i].subs, starts); }
    }
  }

  lemma ThinnedNothing(ss: seq<Section>, out: seq<Section>, starts: set<nat>)
    requires Thinned(ss, out, starts) && Promotable(ss, starts) == {}
    ensures ss == out
  {
    forall i | 0 <= i < |ss| ensures ss[i] == out[i] {
      if IsReleased(ss[i]) {
        assert ss[i] in ss;
        forall k <- ChosenFrom(ss[i].subs, starts) ensures k in Promotable(ss, starts) { }
        NothingChosen(ss[i].subs, out[i].subs, starts);
      }
    }
  }

  method ThinSection(s: Section, starts: set<nat>, target0: seq<Sub>) returns (t: Section, target: seq<Sub>)
    requires Wellformed(s)
    ensures ThinnedOne(s, t, starts) && Gave(target0, target, Promotable([s], starts), PromotableTags([s], starts))
  {
    PromotableOne(s, starts);
    PromotableTagsOne(s, starts);
    t, target := s, target0;
    if IsReleased(s) { t, target := PromoteFrom(s, starts, target0); }
  }

  /** Where the loop over the sections is. */
  ghost predicate ThinnedSoFar(ss: seq<Section>, out: seq<Section>, starts: set<nat>, target0: seq<Sub>,
                               target: seq<Sub>) {
    && |out| <= |ss| && Thinned(ss[..|out|], out, starts)
    && Gave(target0, target, Promotable(ss[..|out|], starts), PromotableTags(ss[..|out|], starts))
  }

  method ThinSections(ss: seq<Section>, starts: set<nat>, target0: seq<Sub>)
    returns (out: seq<Section>, target: seq<Sub>)
    requires AllWellformed(ss)
    ensures Thinned(ss, out, starts) && Gave(target0, target, Promotable(ss, starts), PromotableTags(ss, starts))
  {
    out, target := [], target0;
    ThinStart(ss, starts, target0);
    while |out| < |ss|
      invariant ThinnedSoFar(ss, out, starts, target0, target)
    {
      ghost var before := target;
      var section;
      section, target := ThinSection(ss[|out|], starts, target);
      ThinStep(ss, out, section, starts, target0, before, target);
      out := out + [section];
    }
    TakeAll(ss, |out|);
  }

  lemma ThinStart(ss: seq<Section>, starts: set<nat>, target: seq<Sub>)
    ensures ThinnedSoFar(ss, [], starts, target, target)
  {
    assert Promotable(ss[..0], starts) == {} && PromotableTags(ss[..0], starts) == {};
  }

  lemma ThinStep(ss: seq<Section>, out: seq<Section>, t: Section, starts: set<nat>,
                 target0: seq<Sub>, before: seq<Sub>, target: seq<Sub>)
    requires |out| < |ss| && ThinnedSoFar(ss, out, starts, target0, before) && ThinnedOne(ss[|out|], t, starts)
    requires Gave(before, target, Promotable([ss[|out|]], starts), PromotableTags([ss[|out|]], starts))
    ensures ThinnedSoFar(ss, out + [t], starts, target0, target)
  {
    var i := |out|;
    TakeMore(ss, i);
    ThinnedMore(ss[..i], out, starts, ss[i], t);
    PromotableCat(ss[..i], [ss[i]], starts);
    PromotableTagsCat(ss[..i], [ss[i]], starts);
    GaveMore(target0, before, target, Promotable(ss[..i], starts), Promotable([ss[i]], starts),
             PromotableTags(ss[..i], starts), PromotableTags([ss[i]], starts));
  }

  /** Where everything is after promotion. A released section keeps exactly the items that were
      not chosen, other Unreleased sections stay as they are, and the first Unreleased section
      has its own keys and those of the chosen items. If there is none and something was chosen,
      a new one comes first; a section that is met again because of it has nothing left to
      promote. */
  ghost predicate Moved(ss: seq<Section>, out: seq<Section>, starts: set<nat>) {
    var u, keys := FirstUnreleased(ss), Promotable(ss, starts);
    if u < |ss| then
      && |out| == |ss| && out[u] == ss[u].(subs := out[u].subs) && SubsKeys(out[u].subs) == SubsKeys(ss[u].subs) + keys
      && SubsTags(out[u].subs) == SubsTags(ss[u].subs) + PromotableTags(ss, starts)
      && Thinned(ss, out[u := ss[u]], starts)
    else if keys == {} then out == ss
    else
      && |out| == |ss| + 1 && out[0] == NEW_UNRELEASED.(subs := out[0].subs) && SubsKeys(out[0].subs) == keys
      && SubsTags(out[0].subs) == PromotableTags(ss, starts)
      && Thinned(ss, out[1..], starts)
  }

  /** Promotion moves items and loses none. */
  ghost predicate Promoted(ss: seq<Section>, out: seq<Section>, starts: set<nat>) {
    && Moved(ss, out, starts)
    && KeysOf(out, Any) == KeysOf(ss, Any)
    && Promotable(ss, starts) <= KeysOf(out, IsUnreleased)
    && AllWellformed(out) && (GoodSections(ss) ==> GoodSections(out))
    && (Promotable(ss, starts) == {} ==> out == ss)
  }

  method Promote(ss: seq<Section>, starts: set<nat>) returns (out: seq<Section>)
    requires AllWellformed(ss)
    ensures Promoted(ss, out, starts)
  {
    var u := FirstUnreleased(ss);
    var section := if u < |ss| then ss[u] else NEW_UNRELEASED;
    var thin, target := ThinSections(ss, starts, section.subs);
    var grown := section.(subs := target);
    if u < |ss| {
      out := thin[u := grown];
    } else {
      out := if target == [] then thin else [grown] + thin;
    }
    PromotedKeys(ss, thin, starts, u, target);
    GrownGood(ss, thin, starts, u, target);
    GrownMoved(ss, thin, starts, u, target);
    if Promotable(ss, starts) == {} { ThinnedNothing(ss, thin, starts); }
  }

  /** The sections once the items taken out are in the Unreleased section. */
  function Grown(thin: seq<Section>, u: nat, target: seq<Sub>): seq<Section> {
    if u < |thin| then thin[u := thin[u].(subs := target)]
    else if target == [] then thin
    else [NEW_UNRELEASED.(subs := target)] + thin
  }

  lemma {:induction false} PromotedKeys(ss: seq<Section>, thin: seq<Section>, starts: set<nat>, u: nat,
                                        target: seq<Sub>)
    requires Thinned(ss, thin, starts) && u == FirstUnreleased(ss)
    requires Gave(if u < |ss| then ss[u].subs else [], target, Promotable(ss, starts), PromotableTags(ss, starts))
    ensures KeysOf(Grown(thin, u, target), Any) == KeysOf(ss, Any)
    ensures Promotable(ss, starts) <= KeysOf(Grown(thin, u, target), IsUnreleased)
  {
    var keys := Promotable(ss, starts);
    ThinnedKeys(ss, thin, starts);
    KeysSplit(ss);
    KeysSplit(Grown(thin, u, target));
    if u < |ss| { GrowAt(thin, u, target, keys); } else { GrowFront(thin, target, keys); }
    Rejoin(KeysOf(thin, IsReleased), KeysOf(thin, IsUnreleased), keys);
  }

  lemma {:induction false} GrownGood(ss: seq<Section>, thin: seq<Section>, starts: set<nat>, u: nat, target: seq<Sub>)
    requires AllWellformed(ss) && Thinned(ss, thin, starts) && u == FirstUnreleased(ss)
    requires Gave(if u < |ss| then ss[u].subs else [], target, Promotable(ss, starts), PromotableTags(ss, starts))
    ensures AllWellformed(Grown(thin, u, target)) && (GoodSections(ss) ==> GoodSections(Grown(thin, u, target)))
  {
    ThinnedGood(ss, thin, starts);
    var s := if u < |ss| then ss[u] else NEW_UNRELEASED;
    assert Wellformed(s) && (GoodSections(ss) ==> GoodSection(s));
    assert Wellformed(s.(subs := target)) && (GoodSection(s) ==> GoodSection(s.(subs := target)));
    if u < |ss| {
      PutGood(thin, u, s.(subs := target));
    } else if target != [] {
      FrontGood(thin, s.(subs := target));
    }
  }

  lemma PutGood(ss: seq<Section>, u: nat, s: Section)
    requires u < |ss| && AllWellformed(ss) && Wellformed(s)
    ensures AllWellformed(ss[u := s]) && (GoodSections(ss) && GoodSection(s) ==> GoodSections(ss[u := s]))
  {
  }

  lemma FrontGood(ss: seq<Section>, s: Section)
    requires AllWellformed(ss) && Wellformed(s)
    ensures AllWellformed([s] + ss) && (GoodSections(ss) && GoodSection(s) ==> GoodSections([s] + ss))
  {
  }

  lemma {:induction false} GrownMoved(ss: seq<Section>, thin: seq<Section>, starts: set<nat>, u: nat, target: seq<Sub>)
    requires Thinned(ss, thin, starts) && u == FirstUnreleased(ss)
    requires Gave(if u < |ss| then ss[u].subs else [], target, Promotable(ss, starts), PromotableTags(ss, starts))
    ensures Moved(ss, Grown(thin, u, target), starts)
  {
    if u < |ss| {
      MovedAt(ss, thin, starts, u, thin[u].(subs := target));
    } else if Promotable(ss, starts) == {} {
      ThinnedNothing(ss, thin, starts);
    } else {
      NoKeys();
      assert Grown(thin, u, target)[1..] == thin;
    }
  }

  lemma {:induction false} MovedAt(ss: seq<Section>, thin: seq<Section>, starts: set<nat>, u: nat, grown: Section)
    requires Thinned(ss, thin, starts) && u == FirstUnreleased(ss) < |ss| && grown == ss[u].(subs := grown.subs)
    requires SubsKeys(grown.subs) == SubsKeys(ss[u].subs) + Promotable(ss, starts)
    requires SubsTags(grown.subs) == SubsTags(ss[u].subs) + PromotableTags(ss, starts)
    ensures Moved(ss, thin[u := grown], starts)
  {
    assert thin[u := grown][u := ss[u]] == thin;
  }

  lemma Rejoin(a: set<Body>, b: set<Body>, x: set<Body>)
    ensures a + (b + x) == (a + x) + b
  {
  }

  lemma Regroup(a: set<Body>, b: set<Body>, c: set<Body>, x: set<Body>)
    ensures a + (b + x) + c == (a + b + c) + x
  {
  }

  lemma GrowAt(thin: seq<Section>, u: nat, target: seq<Sub>, keys: set<Body>)
    requires u < |thin| && IsUnreleased(thin[u]) && SubsKeys(target) == SubsKeys(thin[u].subs) + keys
    ensures KeysOf(Grown(thin, u, target), IsReleased) == KeysOf(thin, IsReleased)
    ensures KeysOf(Grown(thin, u, target), IsUnreleased) == KeysOf(thin, IsUnreleased) + keys
  {
    var grown := thin[u].(subs := target);
    KeysOfUpdate(thin, u, grown, IsReleased);
    KeysOfUpdate(thin, u, grown, IsUnreleased);
    KeysOfOne(thin[u], IsReleased);
    KeysOfOne(grown, IsReleased);
    KeysOfOne(thin[u], IsUnreleased);
    KeysOfOne(grown, IsUnreleased);
    Regroup(KeysOf(thin[..u], IsUnreleased), SubsKeys(thin[u].subs), KeysOf(thin[u + 1..], IsUnreleased), keys);
  }

  lemma GrowFront(thin: seq<Section>, target: seq<Sub>, keys: set<Body>)
    requires SubsKeys(target) == SubsKeys([]) + keys && (keys == {} ==> target == [])
    ensures KeysOf(Grown(thin, |thin|, target), IsReleased) == KeysOf(thin, IsReleased)
    ensures KeysOf(Grown(thin, |thin|, target), IsUnreleased) == KeysOf(thin, IsUnreleased) + keys
  {
    var grown := NEW_UNRELEASED.(subs := target);
    NoKeys();
    KeysOfCat([grown], thin, IsUnreleased);
    KeysOfCat([grown], thin, IsReleased);
    KeysOfOne(grown, IsUnreleased);
    KeysOfOne(grown, IsReleased);
    FrontSets(KeysOf(thin, IsReleased), KeysOf(thin, IsUnreleased), keys);
  }

  lemma FrontSets(r: set<Body>, u: set<Body>, x: set<Body>)
    ensures {} + r == r && {} + x == x && x + u == u + x
  {
  }

  lemma NoKeys()
    ensures SubsKeys([]) == {}
  {
  }
}

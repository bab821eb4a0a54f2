/** Joining, compacting and thinning out the bodies of a changelog: `appendSubsectionLines`,
    `compactAdjacentListSpacing` and the removal of items by line number in
    scripts/fix-changelogs.ts. */
module ChangelogMerge {
  import opened Common
  import opened ChangelogItems

  // ---------- Joining ----------

  function Separator(existing: Body, source: Body): Body
    requires existing != [] && source != []
  {
    if existing[|existing| - 1].Bullet? && source[0].Bullet? then [] else [EMPTY]
  }

  function AppendLines(target: Body, source: Body): Body {
    var trimmed, existing := Trim(source), Trim(target);
    if trimmed == [] then target
    else if existing == [] then trimmed
    else existing + Separator(existing, trimmed) + trimmed
  }

  lemma {:induction false} SegsProse(a: Body, lead: Body)
    requires NoBullet(lead) && Segs(a).segs != []
    ensures var s, k := Segs(a).segs, |Segs(a).segs| - 1;
            Segs(a + lead) == Split(Segs(a).lead, s[k := s[k] + lead])
    decreases a
  {
    CatTail(a, lead);
    var rest := Segs(a[1..]);
    if rest.segs != [] {
      SegsProse(a[1..], lead);
      if a[0].Bullet? { SetLast([a[0]] + rest.lead, rest.segs, rest.segs[|rest.segs| - 1] + lead); }
    } else {
      NoSegs(a[1..]);
      SegsOfLead(a[1..] + lead);
      assert [a[0]] + (a[1..] + lead) == [a[0]] + a[1..] + lead;
    }
  }

  lemma SetLast(seg: Body, segs: seq<Body>, last: Body)
    requires segs != []
    ensures ([seg] + segs)[|segs| := last] == [seg] + segs[|segs| - 1 := last]
  {
  }

  lemma {:induction false} NoSegs(a: Body)
    requires Segs(a).segs == []
    ensures NoBullet(a) && Segs(a).lead == a
    decreases a
  {
    if a != [] {
      NoSegs(a[1..]);
      HeadAndTail(a);
    }
  }

  lemma AppendAtBullet(target: Body, source: Body)
    requires StartsAtBullet(Trim(source))
    ensures Items(AppendLines(target, source)) == Items(target) + Items(source)
  {
    var trimmed, existing := Trim(source), Trim(target);
    ItemsOfTrim(target);
    ItemsOfTrim(source);
    if trimmed == [] {
      assert Items(target) + [] == Items(target);
    } else if existing == [] {
      assert [] + Items(source) == Items(source);
    } else {
      var sep := Separator(existing, trimmed);
      ItemsCat(existing + sep, trimmed);
      SegsBlankEnd(existing, sep);
    }
  }

  /** A longer key is another key. */
  lemma Longer(s: Body, lead: Body)
    requires IsSeg(s) && lead != [] && !lead[|lead| - 1].Blank?
    ensures |Trim(s + lead)| > |Trim(s)|
  {
    var whole := s + lead;
    TrimKeeps(whole);
    var pre, post := TrimParts(s);
  }

  /** Joining keeps the items of both bodies if and only if the second begins at a bullet, or
      the first has no item that its opening prose could be taken for a part of. */
  lemma AppendKeepsItemsIff(target: Body, source: Body)
    ensures Items(AppendLines(target, source)) == Items(target) + Items(source)
       <==> StartsAtBullet(Trim(source)) || Items(target) == []
  {
    var trimmed, existing := Trim(source), Trim(target);
    ItemsOfTrim(target);
    ItemsOfTrim(source);
    if StartsAtBullet(trimmed) {
      AppendAtBullet(target, source);
    } else if existing == [] {
      assert [] + Items(source) == Items(source);
    } else {
      TrimTwice(source);
      JoinProse(existing, trimmed);
    }
  }

  lemma JoinProse(existing: Body, trimmed: Body)
    requires existing != [] && trimmed != [] && Trimmed(trimmed) && !trimmed[0].Bullet?
    ensures Items(existing + [EMPTY] + trimmed) == Items(existing) + Items(trimmed) <==> Items(existing) == []
  {
    var split := Segs(trimmed);
    SegsFlat(trimmed);
    SegsAreSegs(trimmed);
    SegsAreSegs(existing);
    SegsOfFlat(split.segs);
    var gap := [EMPTY] + split.lead;
    assert existing + [EMPTY] + trimmed == (existing + gap) + Flat(split.segs);
    ItemsCat(existing + gap, Flat(split.segs));
    assert Items(Flat(split.segs)) == Items(trimmed);
    if Items(existing) == [] {
      assert Segs(existing).segs == [];
      NoSegs(existing);
      SegsOfLead(existing + gap);
      assert [] + Items(trimmed) == Items(trimmed);
    } else {
      LongerLast(existing, gap, Items(trimmed), trimmed);
    }
  }

  lemma {:induction false} LongerLast(existing: Body, gap: Body, more: seq<Body>, trimmed: Body)
    requires Segs(existing).segs != [] && AllSegs(Segs(existing).segs) && trimmed != [] && Trimmed(trimmed)
    requires NoBullet(gap) && gap == [EMPTY] + Segs(trimmed).lead && Segs(trimmed).lead != []
    ensures Items(existing + gap) + more != Items(existing) + more
  {
    var k := |Segs(existing).segs| - 1;
    var last := Segs(existing).segs[k];
    SegsProse(existing, gap);
    var tight := LastSolid(trimmed, gap);
    var pre, post := TrimParts(gap);
    assert Items(existing + gap)[k] == Trim(last + gap);
    assert last + gap == last + tight + gap[|tight|..];
    TrimAfter(last + tight, gap[|tight|..]);
    Longer(last, tight);
    assert (Items(existing + gap) + more)[k] == Trim(last + gap) && (Items(existing) + more)[k] == Trim(last);
  }

  /** The opening prose up to its last line that is not blank. */
  lemma LastSolid(trimmed: Body, gap: Body) returns (tight: Body)
    requires trimmed != [] && Trimmed(trimmed) && gap == [EMPTY] + Segs(trimmed).lead && Segs(trimmed).lead != []
    ensures tight != [] && |tight| <= |gap| && tight == gap[..|tight|] && !tight[|tight| - 1].Blank?
    ensures AllBlank(gap[|tight|..])
  {
    SegsFlat(trimmed);
    var lead := Segs(trimmed).lead;
    assert lead[0] == trimmed[0];
    var post := TrimEndParts(lead);
    TrimEndKeepsHead(lead);
    tight := [EMPTY] + TrimEnd(lead);
    assert gap == tight + post;
  }

  // ---------- Compacting ----------

  function Solid(ls: Body): Body {
    if ls == [] then [] else (if ls[0].Blank? then [] else [ls[0]]) + Solid(ls[1..])
  }

  /** Items without blank lines between them, if that is all the body has. */
  function Compact(ls: Body): Body {
    var trimmed := Trim(ls);
    var flat := Flat(Items(trimmed));
    if Items(trimmed) == [] || Solid(trimmed) != Solid(flat) then trimmed else flat
  }

  lemma {:induction false} FlatTrimmed(segs: seq<Body>)
    requires segs != [] && AllSegs(segs) && forall i :: 0 <= i < |segs| ==> Trimmed(segs[i])
    ensures Trimmed(Flat(segs)) && Flat(segs) != [] && Flat(segs)[0].Bullet?
    decreases segs
  {
    assert IsSeg(segs[0]) && Trimmed(segs[0]);
    if |segs| > 1 {
      forall i | 0 <= i < |segs[1..]|
        ensures IsSeg(segs[1..][i]) && Trimmed(segs[1..][i])
      { assert segs[1..][i] == segs[i + 1]; }
      FlatTrimmed(segs[1..]);
    } else {
      assert Flat(segs[1..]) == [];
    }
  }

  lemma FlatItemsTrimmed(ls: Body)
    requires Items(ls) != []
    ensures Trimmed(Flat(Items(ls))) && Flat(Items(ls)) != []
  {
    ItemsAreKeys(ls);
    forall i | 0 <= i < |Items(ls)| ensures Trimmed(Items(ls)[i]) { TrimTwice(Segs(ls).segs[i]); }
    FlatTrimmed(Items(ls));
  }

  /** Compacting keeps the items, trims, and has nothing to do the second time. */
  lemma CompactKeeps(ls: Body)
    ensures Items(Compact(ls)) == Items(ls) && Trimmed(Compact(ls)) && Compact(Compact(ls)) == Compact(ls)
    ensures Compact(Trim(ls)) == Compact(ls) && (Compact(ls) == [] <==> Trim(ls) == [])
  {
    var trimmed := Trim(ls);
    ItemsOfTrim(ls);
    TrimTwice(ls);
    ItemsAreKeys(trimmed);
    if Items(trimmed) != [] {
      FlatItemsTrimmed(trimmed);
      TrimKeeps(Flat(Items(trimmed)));
    }
  }

  lemma CompactStart(ls: Body)
    requires StartsAtBullet(Trim(ls))
    ensures StartsAtBullet(Compact(ls))
  {
    var trimmed := Trim(ls);
    if Items(trimmed) != [] {
      ItemsAreKeys(trimmed);
      SegsOfFlat(Items(trimmed));
    }
  }

  // ---------- Removing items by line number ----------

  datatype Item = Item(start: nat, lines: Body)

  function ItemsFrom(segs: seq<Body>, start: nat): seq<Item> {
    if segs == [] then [] else [Item(start, segs[0])] + ItemsFrom(segs[1..], start + |segs[0]|)
  }

  /** The items of a body whose first line has number `first`. */
  function ItemsOf(ls: Body, first: nat): seq<Item> {
    ItemsFrom(Segs(ls).segs, first + |Segs(ls).lead|)
  }

  predicate InItem(it: Item, n: nat) {
    it.start <= n < it.start + |it.lines|
  }

  ghost predicate Gone(items: seq<Item>, sel: Item -> bool, n: nat) {
    exists i :: 0 <= i < |items| && sel(items[i]) && InItem(items[i], n)
  }

  ghost predicate IsRange(gone: set<nat>, items: seq<Item>, sel: Item -> bool) {
    forall n :: n in gone <==> Gone(items, sel, n)
  }

  method LineRangeSet(items: seq<Item>, sel: Item -> bool) returns (gone: set<nat>)
    ensures IsRange(gone, items, sel)
  {
    gone := {};
    var i := 0;
    while i < |items|
      invariant 0 <= i <= |items|
      invariant forall n :: n in gone <==> exists k :: 0 <= k < i && sel(items[k]) && InItem(items[k], n)
    {
      if sel(items[i]) {
        var line := items[i].start;
        ghost var before := gone;
        while line < items[i].start + |items[i].lines|
          invariant items[i].start <= line <= items[i].start + |items[i].lines|
          invariant forall n :: n in gone <==> n in before || items[i].start <= n < line
        {
          gone := gone + {line};
          line := line + 1;
        }
      }
      i := i + 1;
    }
  }

  /** The lines whose numbers are not in `gone`. */
  function Filter(ls: Body, first: nat, gone: set<nat>): Body {
    if ls == [] then [] else (if first in gone then [] else [ls[0]]) + Filter(ls[1..], first + 1, gone)
  }

  lemma {:induction false} FilterCat(a: Body, b: Body, first: nat, gone: set<nat>)
    ensures Filter(a + b, first, gone) == Filter(a, first, gone) + Filter(b, first + |a|, gone)
    decreases a
  {
    if a == [] {
      assert a + b == b;
    } else {
      CatTail(a, b);
      FilterCat(a[1..], b, first + 1, gone);
    }
  }

  lemma {:induction false} FilterAllOrNone(a: Body, first: nat, gone: set<nat>, out: bool)
    requires forall n :: first <= n < first + |a| ==> (n in gone <==> out)
    ensures Filter(a, first, gone) == if out then [] else a
    decreases a
  {
    if a != [] {
      FilterAllOrNone(a[1..], first + 1, gone, out);
      HeadAndTail(a);
    }
  }

  function Kept(items: seq<Item>, sel: Item -> bool): seq<Body> {
    if items == [] then []
    else (if sel(items[0]) then [] else [items[0].lines]) + Kept(items[1..], sel)
  }

  lemma {:induction false} StartsLater(segs: seq<Body>, start: nat, i: nat)
    requires i < |ItemsFrom(segs, start)|
    ensures ItemsFrom(segs, start)[i].start >= start
    decreases segs
  {
    if i > 0 { StartsLater(segs[1..], start + |segs[0]|, i - 1); }
  }

  ghost predicate AgreesFrom(gone: set<nat>, items: seq<Item>, sel: Item -> bool, from: nat) {
    forall n :: n >= from ==> (n in gone <==> Gone(items, sel, n))
  }

  lemma AgreesTail(gone: set<nat>, segs: seq<Body>, start: nat, sel: Item -> bool)
    requires segs != [] && AgreesFrom(gone, ItemsFrom(segs, start), sel, start)
    ensures AgreesFrom(gone, ItemsFrom(segs[1..], start + |segs[0]|), sel, start + |segs[0]|)
    ensures forall n :: start <= n < start + |segs[0]| ==> (n in gone <==> sel(Item(start, segs[0])))
  {
    var items, rest := ItemsFrom(segs, start), ItemsFrom(segs[1..], start + |segs[0]|);
    assert items == [Item(start, segs[0])] + rest;
    forall n | n >= start + |segs[0]| ensures Gone(items, sel, n) <==> Gone(rest, sel, n) {
      if Gone(rest, sel, n) {
        var i :| 0 <= i < |rest| && sel(rest[i]) && InItem(rest[i], n);
        assert items[i + 1] == rest[i];
      }
      if Gone(items, sel, n) {
        var i :| 0 <= i < |items| && sel(items[i]) && InItem(items[i], n);
        assert i > 0 && items[i] == rest[i - 1];
      }
    }
    forall n | start <= n < start + |segs[0]| ensures Gone(items, sel, n) <==> sel(Item(start, segs[0])) {
      if sel(Item(start, segs[0])) { assert sel(items[0]) && InItem(items[0], n); }
      if Gone(items, sel, n) {
        var i :| 0 <= i < |items| && sel(items[i]) && InItem(items[i], n);
        if i > 0 { StartsLater(segs[1..], start + |segs[0]|, i - 1); }
      }
    }
  }

  lemma {:induction false} FlatMore(seg: Body, segs: seq<Body>)
    ensures Flat([seg] + segs) == seg + Flat(segs)
  {
    assert ([seg] + segs)[1..] == segs;
  }

  lemma {:induction false} KeptMore(it: Item, items: seq<Item>, sel: Item -> bool)
    ensures Kept([it] + items, sel) == if sel(it) then Kept(items, sel) else [it.lines] + Kept(items, sel)
  {
    assert ([it] + items)[1..] == items;
  }

  /** Item by item: its lines are all gone, or none is. */
  ghost predicate WholeItems(gone: set<nat>, segs: seq<Body>, start: nat, sel: Item -> bool) {
    segs != [] ==>
      && (forall n :: start <= n < start + |segs[0]| ==> (n in gone <==> sel(Item(start, segs[0]))))
      && WholeItems(gone, segs[1..], start + |segs[0]|, sel)
  }

  lemma {:induction false} RangeIsWhole(gone: set<nat>, segs: seq<Body>, start: nat, sel: Item -> bool)
    requires AgreesFrom(gone, ItemsFrom(segs, start), sel, start)
    ensures WholeItems(gone, segs, start, sel)
    decreases segs
  {
    if segs != [] {
      AgreesTail(gone, segs, start, sel);
      RangeIsWhole(gone, segs[1..], start + |segs[0]|, sel);
    }
  }

  lemma {:induction false} FilterSegs(segs: seq<Body>, start: nat, gone: set<nat>, sel: Item -> bool)
    requires WholeItems(gone, segs, start, sel)
    ensures Filter(Flat(segs), start, gone) == Flat(Kept(ItemsFrom(segs, start), sel))
    decreases segs
  {
    if segs != [] {
      var it, next := Item(start, segs[0]), start + |segs[0]|;
      var rest := ItemsFrom(segs[1..], next);
      FilterSegs(segs[1..], next, gone, sel);
      FilterCat(segs[0], Flat(segs[1..]), start, gone);
      FilterAllOrNone(segs[0], start, gone, sel(it));
      KeptMore(it, rest, sel);
      if !sel(it) { FlatMore(segs[0], Kept(rest, sel)); }
    }
  }

  lemma {:induction false} KeptSegs(segs: seq<Body>, start: nat, sel: Item -> bool)
    requires AllSegs(segs)
    ensures AllSegs(Kept(ItemsFrom(segs, start), sel))
    decreases segs
  {
    if segs != [] {
      KeptSegs(segs[1..], start + |segs[0]|, sel);
      assert ItemsFrom(segs, start)[1..] == ItemsFrom(segs[1..], start + |segs[0]|);
    }
  }

  lemma {:induction false} NoneGoneBefore(segs: seq<Body>, start: nat, gone: set<nat>, sel: Item -> bool)
    requires IsRange(gone, ItemsFrom(segs, start), sel)
    ensures forall n :: 0 <= n < start ==> n !in gone
  {
    var items := ItemsFrom(segs, start);
    forall n: nat | n < start ensures n !in gone {
      if Gone(items, sel, n) {
        var i :| 0 <= i < |items| && sel(items[i]) && InItem(items[i], n);
        StartsLater(segs, start, i);
      }
    }
  }

  lemma {:induction false} ItemsBehind(lead: Body, segs: seq<Body>)
    requires NoBullet(lead) && AllSegs(segs)
    ensures Items(lead + Flat(segs)) == TrimAll(segs)
  {
    SegsOfFlat(segs);
    SegsCat(lead, Flat(segs));
    SegsOfLead(lead);
    assert [] + segs == segs;
  }

  /** Filtering by line number removes the chosen items whole, and nothing else. */
  lemma {:induction false} FilterRemovesItems(ls: Body, first: nat, gone: set<nat>, sel: Item -> bool)
    requires IsRange(gone, ItemsOf(ls, first), sel)
    ensures Filter(ls, first, gone) == Segs(ls).lead + Flat(Kept(ItemsOf(ls, first), sel))
    ensures Items(Filter(ls, first, gone)) == TrimAll(Kept(ItemsOf(ls, first), sel))
  {
    var s := Segs(ls);
    var start := first + |s.lead|;
    SegsFlat(ls);
    SegsAreSegs(ls);
    FilterCat(s.lead, Flat(s.segs), first, gone);
    NoneGoneBefore(s.segs, start, gone, sel);
    FilterAllOrNone(s.lead, first, gone, false);
    RangeIsWhole(gone, s.segs, start, sel);
    FilterSegs(s.segs, start, gone, sel);
    KeptSegs(s.segs, start, sel);
    ItemsBehind(s.lead, Kept(ItemsOf(ls, first), sel));
  }
}

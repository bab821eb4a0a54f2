/** Changelog bodies as lines: blank lines trimmed, items split off at bullets, bodies joined and
    compacted, as scripts/fix-changelogs.ts does. */
module ChangelogItems {
  import opened Common

  datatype Title = Unreleased | Version(parts: seq<int>, text: string)

  /** A line, already recognised. `Category("x", "")` is the heading the tool itself writes. */
  datatype Line =
    | Release(title: Title, text: string)
    | Category(name: string, spelling: string)
    | Bullet(text: string)
    | Prose(text: string)
    | Blank(spaces: string)

  type Body = seq<Line>

  const EMPTY := Blank("")

  // ---------- Trimming ----------

  function TrimStart(ls: Body): Body {
    if ls != [] && ls[0].Blank? then TrimStart(ls[1..]) else ls
  }

  function TrimEnd(ls: Body): Body {
    if ls != [] && ls[|ls| - 1].Blank? then TrimEnd(ls[..|ls| - 1]) else ls
  }

  function Trim(ls: Body): Body {
    TrimEnd(TrimStart(ls))
  }

  predicate AllBlank(ls: Body) {
    forall i :: 0 <= i < |ls| ==> ls[i].Blank?
  }

  predicate Trimmed(ls: Body) {
    ls != [] ==> !ls[0].Blank? && !ls[|ls| - 1].Blank?
  }

  lemma {:induction false} TrimStartIs(pre: Body, ls: Body)
    requires AllBlank(pre) && (ls != [] ==> !ls[0].Blank?)
    ensures TrimStart(pre + ls) == ls
    decreases pre
  {
    if pre == [] {
      assert pre + ls == ls;
    } else {
      CatTail(pre, ls);
      TrimStartIs(pre[1..], ls);
    }
  }

  lemma {:induction false} TrimEndIs(ls: Body, post: Body)
    requires AllBlank(post) && (ls != [] ==> !ls[|ls| - 1].Blank?)
    ensures TrimEnd(ls + post) == ls
    decreases post
  {
    if post == [] {
      assert ls + post == ls;
    } else {
      assert (ls + post)[..|ls + post| - 1] == ls + post[..|post| - 1];
      TrimEndIs(ls, post[..|post| - 1]);
    }
  }

  lemma TrimIs(pre: Body, mid: Body, post: Body)
    requires AllBlank(pre) && AllBlank(post) && Trimmed(mid)
    ensures Trim(pre + mid + post) == mid
  {
    if mid == [] {
      assert pre + mid + post == (pre + post) + [];
      TrimStartIs(pre + post, []);
    } else {
      assert pre + mid + post == pre + (mid + post);
      TrimStartIs(pre, mid + post);
      TrimEndIs(mid, post);
    }
  }

  lemma {:induction false} TrimStartParts(ls: Body) returns (pre: Body)
    ensures ls == pre + TrimStart(ls) && AllBlank(pre) && (TrimStart(ls) != [] ==> !TrimStart(ls)[0].Blank?)
    decreases ls
  {
    if ls != [] && ls[0].Blank? {
      pre := TrimStartParts(ls[1..]);
      pre := [ls[0]] + pre;
    } else {
      pre := [];
    }
  }

  lemma {:induction false} TrimEndParts(ls: Body) returns (post: Body)
    ensures ls == TrimEnd(ls) + post && AllBlank(post)
    ensures TrimEnd(ls) != [] ==> !TrimEnd(ls)[|TrimEnd(ls)| - 1].Blank?
    decreases ls
  {
    if ls != [] && ls[|ls| - 1].Blank? {
      var k := |ls| - 1;
      post := TrimEndParts(ls[..k]);
      post := post + [ls[k]];
    } else {
      post := [];
    }
  }

  lemma {:induction false} TrimEndKeepsHead(ls: Body)
    requires ls != [] && !ls[0].Blank?
    ensures TrimEnd(ls) != [] && TrimEnd(ls)[0] == ls[0]
    decreases ls
  {
    if ls[|ls| - 1].Blank? { TrimEndKeepsHead(ls[..|ls| - 1]); }
  }

  lemma TrimIsTrimmed(ls: Body)
    ensures Trimmed(Trim(ls))
  {
    var pre := TrimStartParts(ls);
    var post := TrimEndParts(TrimStart(ls));
    if TrimStart(ls) != [] { TrimEndKeepsHead(TrimStart(ls)); }
  }

  /** A body is its trimmed self between blank lines. */
  lemma TrimParts(ls: Body) returns (pre: Body, post: Body)
    ensures ls == pre + Trim(ls) + post && AllBlank(pre) && AllBlank(post) && Trimmed(Trim(ls))
  {
    pre := TrimStartParts(ls);
    post := TrimEndParts(TrimStart(ls));
    TrimIsTrimmed(ls);
    assert pre + (Trim(ls) + post) == pre + Trim(ls) + post;
  }

  lemma TrimTwice(ls: Body)
    ensures Trimmed(Trim(ls)) && Trim(Trim(ls)) == Trim(ls)
  {
    var pre, post := TrimParts(ls);
    TrimIs([], Trim(ls), []);
    assert [] + Trim(ls) + [] == Trim(ls);
  }

  lemma TrimKeeps(ls: Body)
    requires Trimmed(ls)
    ensures Trim(ls) == ls
  {
    TrimIs([], ls, []);
    assert [] + ls + [] == ls;
  }

  /** Blank lines around do not matter. */
  lemma TrimAround(a: Body, ls: Body, b: Body)
    requires AllBlank(a) && AllBlank(b)
    ensures Trim(a + ls + b) == Trim(ls)
  {
    var pre, post := TrimParts(ls);
    assert a + ls + b == (a + pre) + Trim(ls) + (post + b);
    TrimIs(a + pre, Trim(ls), post + b);
  }

  // ---------- Items ----------

  /** What stands before the first bullet, and each bullet with what follows it. */
  datatype Split = Split(lead: Body, segs: seq<Body>)

  function Segs(ls: Body): Split {
    if ls == [] then Split([], [])
    else
      var rest := Segs(ls[1..]);
      if ls[0].Bullet? then Split([], [[ls[0]] + rest.lead] + rest.segs)
      else Split([ls[0]] + rest.lead, rest.segs)
  }

  function TrimAll(segs: seq<Body>): seq<Body> {
    seq(|segs|, i requires 0 <= i < |segs| => Trim(segs[i]))
  }

  /** The keys of the items in a body. */
  function Items(ls: Body): seq<Body> {
    TrimAll(Segs(ls).segs)
  }

  predicate StartsAtBullet(ls: Body) {
    ls == [] || ls[0].Bullet?
  }

  lemma {:induction false} BulletLead(ls: Body)
    requires StartsAtBullet(ls)
    ensures Segs(ls).lead == []
  {
  }

  /** A body that goes on with a bullet splits there. */
  lemma {:induction false} SegsCat(a: Body, b: Body)
    requires StartsAtBullet(b)
    ensures Segs(a + b) == Split(Segs(a).lead, Segs(a).segs + Segs(b).segs)
    decreases a
  {
    if a == [] {
      assert a + b == b;
      BulletLead(b);
      assert [] + Segs(b).segs == Segs(b).segs;
    } else {
      CatTail(a, b);
      SegsCat(a[1..], b);
      var rest := Segs(a[1..]);
      assert [[a[0]] + rest.lead] + (rest.segs + Segs(b).segs) == [[a[0]] + rest.lead] + rest.segs + Segs(b).segs;
    }
  }

  lemma TrimAllCat(a: seq<Body>, b: seq<Body>)
    ensures TrimAll(a + b) == TrimAll(a) + TrimAll(b)
  {
  }

  lemma ItemsCat(a: Body, b: Body)
    requires StartsAtBullet(b)
    ensures Items(a + b) == Items(a) + Items(b)
  {
    SegsCat(a, b);
    TrimAllCat(Segs(a).segs, Segs(b).segs);
  }

  predicate NoBullet(ls: Body) {
    forall i :: 0 <= i < |ls| ==> !ls[i].Bullet?
  }

  lemma {:induction false} SegsOfLead(ls: Body)
    requires NoBullet(ls)
    ensures Segs(ls) == Split(ls, [])
    decreases ls
  {
    if ls != [] {
      SegsOfLead(ls[1..]);
      HeadAndTail(ls);
    }
  }

  lemma ItemsStep(ls: Body)
    requires ls != []
    ensures var rest := Segs(ls[1..]);
            Items(ls) == (if ls[0].Bullet? then [Trim([ls[0]] + rest.lead)] else []) + Items(ls[1..])
  {
    var rest := Segs(ls[1..]);
    if ls[0].Bullet? { TrimAllCat([[ls[0]] + rest.lead], rest.segs); }
  }

  lemma TrimAfter(a: Body, post: Body)
    requires AllBlank(post)
    ensures Trim(a + post) == Trim(a)
  {
    TrimAround([], a, post);
    assert [] + a + post == a + post;
  }

  /** Blank lines at the end go to the last item, where trimming takes them off again. */
  lemma {:induction false} SegsBlankEnd(ls: Body, post: Body)
    requires AllBlank(post)
    ensures Items(ls + post) == Items(ls)
    ensures Segs(ls + post).lead == Segs(ls).lead + (if Segs(ls).segs == [] then post else [])
    decreases ls
  {
    if ls == [] {
      assert ls + post == post;
      SegsOfLead(post);
    } else {
      CatTail(ls, post);
      SegsBlankEnd(ls[1..], post);
      ItemsStep(ls);
      ItemsStep(ls + post);
      var lead, more := Segs(ls[1..]).lead, Segs(ls[1..] + post).lead;
      if more == lead + post {
        assert [ls[0]] + more == ([ls[0]] + lead) + post;
        TrimAfter([ls[0]] + lead, post);
      }
      assert [ls[0]] + (lead + post) == [ls[0]] + lead + post && lead + [] == lead;
    }
  }

  lemma {:induction false} ItemsBlankStart(pre: Body, ls: Body)
    requires AllBlank(pre)
    ensures Items(pre + ls) == Items(ls)
    decreases pre
  {
    if pre == [] {
      assert pre + ls == ls;
    } else {
      CatTail(pre, ls);
      ItemsBlankStart(pre[1..], ls);
    }
  }

  /** Trimming a body loses none of its items. */
  lemma ItemsOfTrim(ls: Body)
    ensures Items(Trim(ls)) == Items(ls)
  {
    var pre, post := TrimParts(ls);
    assert ls == pre + (Trim(ls) + post);
    ItemsBlankStart(pre, Trim(ls) + post);
    SegsBlankEnd(Trim(ls), post);
  }

  function Flat(segs: seq<Body>): Body {
    if segs == [] then [] else segs[0] + Flat(segs[1..])
  }

  lemma {:induction false} SegsFlat(ls: Body)
    ensures Segs(ls).lead + Flat(Segs(ls).segs) == ls
    decreases ls
  {
    if ls != [] {
      SegsFlat(ls[1..]);
      var rest := Segs(ls[1..]);
      if ls[0].Bullet? {
        assert ([[ls[0]] + rest.lead] + rest.segs)[1..] == rest.segs;
        assert [ls[0]] + rest.lead + Flat(rest.segs) == [ls[0]] + (rest.lead + Flat(rest.segs));
      } else {
        assert [ls[0]] + rest.lead + Flat(rest.segs) == [ls[0]] + (rest.lead + Flat(rest.segs));
      }
    }
  }

  /** One bullet, then lines that are none. */
  predicate IsSeg(s: Body) {
    s != [] && s[0].Bullet? && NoBullet(s[1..])
  }

  predicate AllSegs(segs: seq<Body>) {
    forall i :: 0 <= i < |segs| ==> IsSeg(segs[i])
  }

  lemma {:induction false} SegsAreSegs(ls: Body)
    ensures AllSegs(Segs(ls).segs) && NoBullet(Segs(ls).lead)
    decreases ls
  {
    if ls != [] {
      SegsAreSegs(ls[1..]);
      var rest := Segs(ls[1..]);
      if ls[0].Bullet? { assert ([ls[0]] + rest.lead)[1..] == rest.lead; }
    }
  }

  lemma {:induction false} SegsOfSeg(s: Body)
    requires IsSeg(s)
    ensures Segs(s) == Split([], [s])
  {
    SegsOfLead(s[1..]);
    HeadAndTail(s);
  }

  lemma {:induction false} SegsOfFlat(segs: seq<Body>)
    requires AllSegs(segs)
    ensures Segs(Flat(segs)) == Split([], segs) && StartsAtBullet(Flat(segs))
    decreases segs
  {
    if segs != [] {
      SegsOfFlat(segs[1..]);
      SegsCat(segs[0], Flat(segs[1..]));
      SegsOfSeg(segs[0]);
      HeadAndTail(segs);
    }
  }

  lemma TrimSeg(s: Body)
    requires IsSeg(s)
    ensures IsSeg(Trim(s)) && Trim(s)[0] == s[0]
  {
    var post := TrimEndParts(s);
    TrimEndKeepsHead(s);
    forall i | 0 <= i < |Trim(s)[1..]| ensures !Trim(s)[1..][i].Bullet? {
      assert Trim(s)[1..][i] == s[1..][i];
    }
  }

  lemma TrimAllSegs(segs: seq<Body>)
    requires AllSegs(segs)
    ensures AllSegs(TrimAll(segs)) && TrimAll(TrimAll(segs)) == TrimAll(segs)
  {
    forall i | 0 <= i < |segs| ensures IsSeg(TrimAll(segs)[i]) && Trim(Trim(segs[i])) == Trim(segs[i]) {
      TrimSeg(segs[i]);
      TrimTwice(segs[i]);
    }
  }

  /** Every item's key begins with its bullet, and is its own key. */
  lemma ItemsAreKeys(ls: Body)
    ensures AllSegs(Items(ls)) && Items(Flat(Items(ls))) == Items(ls)
    ensures forall i :: 0 <= i < |Items(ls)| ==> Trim(Items(ls)[i]) == Items(ls)[i]
  {
    SegsAreSegs(ls);
    TrimAllSegs(Segs(ls).segs);
    SegsOfFlat(Items(ls));
    forall i | 0 <= i < |Items(ls)| ensures Trim(Items(ls)[i]) == Items(ls)[i] {
      TrimTwice(Segs(ls).segs[i]);
    }
  }
}

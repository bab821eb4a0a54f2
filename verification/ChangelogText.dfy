/** Reading and writing a changelog: `parseChangelog` and `renderChangelog` of
    scripts/fix-changelogs.ts, on lines. */
module ChangelogText {
  import opened Common
  import opened ChangelogItems

  /** `first` is the number of the first line in the file the body was read from. */
  datatype Sub = Sub(title: string, lines: Body, first: nat)

  datatype Section = Section(heading: Line, leading: Body, subs: seq<Sub>)

  datatype Doc = Doc(prefix: Body, sections: seq<Section>)

  // ---------- Cutting at headings ----------

  datatype Group = Group(head: Line, body: Body, first: nat)

  datatype Cuts = Cuts(lead: Body, groups: seq<Group>)

  /** `at` is the number of the first line. */
  function CutAt(ls: Body, head: Line -> bool, at: nat): Cuts {
    if ls == [] then Cuts([], [])
    else
      var rest := CutAt(ls[1..], head, at + 1);
      if head(ls[0]) then Cuts([], [Group(ls[0], rest.lead, at + 1)] + rest.groups)
      else Cuts([ls[0]] + rest.lead, rest.groups)
  }

  predicate NoHead(ls: Body, head: Line -> bool) {
    forall i :: 0 <= i < |ls| ==> !head(ls[i])
  }

  lemma {:induction false} CutNone(ls: Body, head: Line -> bool, at: nat)
    requires NoHead(ls, head)
    ensures CutAt(ls, head, at) == Cuts(ls, [])
    decreases ls
  {
    if ls != [] {
      CutNone(ls[1..], head, at + 1);
      HeadAndTail(ls);
    }
  }

  lemma {:induction false} CutCat(a: Body, b: Body, head: Line -> bool, at: nat)
    requires b == [] || head(b[0])
    ensures CutAt(a + b, head, at)
         == Cuts(CutAt(a, head, at).lead, CutAt(a, head, at).groups + CutAt(b, head, at + |a|).groups)
    decreases a
  {
    if a == [] {
      assert a + b == b;
      assert [] + CutAt(b, head, at).groups == CutAt(b, head, at).groups;
    } else {
      CatTail(a, b);
      CutCat(a[1..], b, head, at + 1);
      var rest, more := CutAt(a[1..], head, at + 1), CutAt(b, head, at + |a|);
      if head(a[0]) {
        assert [Group(a[0], rest.lead, at + 1)] + (rest.groups + more.groups)
            == [Group(a[0], rest.lead, at + 1)] + rest.groups + more.groups;
      }
    }
  }

  /** A heading and its body, and then another heading or the end. */
  lemma {:induction false} CutGroup(h: Line, body: Body, b: Body, head: Line -> bool, at: nat)
    requires head(h) && NoHead(body, head) && (b == [] || head(b[0]))
    ensures CutAt([h] + body + b, head, at)
         == Cuts([], [Group(h, body, at + 1)] + CutAt(b, head, at + 1 + |body|).groups)
  {
    CutCat([h] + body, b, head, at);
    assert ([h] + body)[1..] == body;
    CutNone(body, head, at + 1);
    assert [Group(h, body, at + 1)] + [] == [Group(h, body, at + 1)];
  }

  ghost predicate GroupsClean(gs: seq<Group>, head: Line -> bool) {
    forall i :: 0 <= i < |gs| ==> head(gs[i].head) && NoHead(gs[i].body, head)
  }

  ghost predicate GroupsFrom(gs: seq<Group>, ls: Body) {
    forall i, l :: 0 <= i < |gs| && l in gs[i].body ==> l in ls
  }

  lemma {:induction false} CutParts(ls: Body, head: Line -> bool, at: nat)
    ensures var c := CutAt(ls, head, at);
            && NoHead(c.lead, head) && GroupsClean(c.groups, head)
            && (forall l <- c.lead :: l in ls) && GroupsFrom(c.groups, ls)
    decreases ls
  {
    if ls != [] {
      CutParts(ls[1..], head, at + 1);
      HeadAndTail(ls);
    }
  }

  method Until(ls: Body, head: Line -> bool, from: nat) returns (body: Body, index: nat)
    requires from <= |ls|
    ensures from <= index <= |ls| && body == ls[from..index] && NoHead(body, head)
    ensures index < |ls| ==> head(ls[index])
  {
    body, index := [], from;
    while index < |ls| && !head(ls[index])
      invariant from <= index <= |ls| && body == ls[from..index] && NoHead(body, head)
    {
      assert ls[from..index + 1] == ls[from..index] + [ls[index]];
      body := body + [ls[index]];
      index := index + 1;
    }
  }

  lemma CutLead(ls: Body, head: Line -> bool, at: nat, k: nat)
    requires k <= |ls| && NoHead(ls[..k], head) && (k < |ls| ==> head(ls[k]))
    ensures CutAt(ls, head, at) == Cuts(ls[..k], CutAt(ls[k..], head, at + k).groups)
  {
    assert ls == ls[..k] + ls[k..];
    CutCat(ls[..k], ls[k..], head, at);
    CutNone(ls[..k], head, at);
    assert [] + CutAt(ls[k..], head, at + k).groups == CutAt(ls[k..], head, at + k).groups;
  }

  lemma CutNext(ls: Body, head: Line -> bool, at: nat, i: nat, k: nat, before: seq<Group>)
    requires i < k <= |ls| && head(ls[i]) && NoHead(ls[i + 1..k], head) && (k < |ls| ==> head(ls[k]))
    ensures before + GroupsAt(ls, head, at, i)
         == before + [Group(ls[i], ls[i + 1..k], at + i + 1)] + GroupsAt(ls, head, at, k)
  {
    assert ls[i..] == [ls[i]] + ls[i + 1..k] + ls[k..];
    CutGroup(ls[i], ls[i + 1..k], ls[k..], head, at + i);
  }

  /** The index-driven loops of the parser, for either kind of heading. */
  /** The groups from a heading on, or none at the end. */
  function GroupsAt(ls: Body, head: Line -> bool, at: nat, index: nat): seq<Group>
    requires index <= |ls|
  {
    CutAt(ls[index..], head, at + index).groups
  }

  method CutLoop(ls: Body, head: Line -> bool, at: nat) returns (lead: Body, groups: seq<Group>)
    ensures Cuts(lead, groups) == CutAt(ls, head, at)
  {
    var index: nat;
    lead, index := Until(ls, head, 0);
    CutLead(ls, head, at, index);
    groups := [];
    ghost var all := GroupsAt(ls, head, at, index);
    assert groups + all == all;
    while index < |ls|
      invariant 0 <= index <= |ls| && (index < |ls| ==> head(ls[index]))
      invariant groups + GroupsAt(ls, head, at, index) == all
    {
      var h, start := ls[index], index + 1;
      var body, next := Until(ls, head, start);
      CutNext(ls, head, at, index, next, groups);
      groups := groups + [Group(h, body, at + start)];
      index := next;
    }
    assert GroupsAt(ls, head, at, index) == [] by { assert ls[index..] == []; }
    assert groups + [] == groups;
  }

  // ---------- Parsing ----------

  predicate IsRelease(l: Line) {
    l.Release?
  }

  predicate IsCategory(l: Line) {
    l.Category?
  }

  function SubOf(g: Group): Sub {
    Sub(if g.head.Category? then g.head.name else "", g.body, g.first)
  }

  function SubsOf(gs: seq<Group>): seq<Sub> {
    seq(|gs|, i requires 0 <= i < |gs| => SubOf(gs[i]))
  }

  function SectionOf(g: Group): Section {
    var c := CutAt(g.body, IsCategory, g.first);
    Section(g.head, c.lead, SubsOf(c.groups))
  }

  function SectionsOf(gs: seq<Group>): seq<Section> {
    seq(|gs|, i requires 0 <= i < |gs| => SectionOf(gs[i]))
  }

  function Parse(ls: Body): Doc {
    var c := CutAt(ls, IsRelease, 1);
    Doc(c.lead, SectionsOf(c.groups))
  }

  method ParseReleaseSection(g: Group) returns (s: Section)
    ensures s == SectionOf(g)
  {
    var leading, parts := CutLoop(g.body, IsCategory, g.first);
    var subs: seq<Sub> := [];
    var j := 0;
    while j < |parts|
      invariant 0 <= j <= |parts| && subs == SubsOf(parts)[..j]
    {
      subs := subs + [SubOf(parts[j])];
      j := j + 1;
    }
    s := Section(g.head, leading, subs);
  }

  method ParseChangelog(ls: Body) returns (doc: Doc)
    ensures doc == Parse(ls)
  {
    var prefix, groups := CutLoop(ls, IsRelease, 1);
    var sections: seq<Section> := [];
    var i := 0;
    while i < |groups|
      invariant 0 <= i <= |groups| && sections == SectionsOf(groups)[..i]
    {
      var section := ParseReleaseSection(groups[i]);
      sections := sections + [section];
      i := i + 1;
    }
    doc := Doc(prefix, sections);
  }

  // ---------- Rendering ----------

  function RenderSubs(subs: seq<Sub>): Body {
    if subs == [] then []
    else
      var lines := Trim(subs[0].lines);
      (if lines == [] then [] else [EMPTY, Category(subs[0].title, ""), EMPTY] + lines) + RenderSubs(subs[1..])
  }

  function RenderSection(s: Section): Body {
    var leading := Trim(s.leading);
    [s.heading] + (if leading == [] then [] else [EMPTY] + leading) + RenderSubs(s.subs) + [EMPTY]
  }

  function RenderSections(ss: seq<Section>): Body {
    if ss == [] then [] else RenderSection(ss[0]) + RenderSections(ss[1..])
  }

  function RenderAll(doc: Doc): Body {
    var prefix := Trim(doc.prefix);
    (if prefix == [] then [] else prefix + [EMPTY]) + RenderSections(doc.sections)
  }

  /** Only lines that are quite empty go. */
  function Pop(ls: Body): Body {
    if ls != [] && ls[|ls| - 1] == EMPTY then Pop(ls[..|ls| - 1]) else ls
  }

  /** The lines of the text written; a text of no lines reads back as one empty line. */
  function Render(doc: Doc): Body {
    var out := Pop(RenderAll(doc));
    if out == [] then [EMPTY] else out
  }

  // ---------- Documents without loose blank lines ----------

  function TrimSubs(subs: seq<Sub>): seq<Sub> {
    if subs == [] then []
    else
      var lines := Trim(subs[0].lines);
      (if lines == [] then [] else [Sub(subs[0].title, lines, 0)]) + TrimSubs(subs[1..])
  }

  function TrimSection(s: Section): Section {
    Section(s.heading, Trim(s.leading), TrimSubs(s.subs))
  }

  function TrimDoc(doc: Doc): Doc {
    Doc(Trim(doc.prefix), seq(|doc.sections|, i requires 0 <= i < |doc.sections| => TrimSection(doc.sections[i])))
  }

  predicate Plain(ls: Body) {
    Trimmed(ls) && NoHead(ls, IsRelease) && NoHead(ls, IsCategory)
  }

  predicate CleanSub(s: Sub) {
    s.lines != [] && Plain(s.lines) && s.first == 0
  }

  predicate CleanSection(s: Section) {
    s.heading.Release? && Plain(s.leading) && forall j :: 0 <= j < |s.subs| ==> CleanSub(s.subs[j])
  }

  predicate Clean(doc: Doc) {
    && Trimmed(doc.prefix) && NoHead(doc.prefix, IsRelease)
    && forall i :: 0 <= i < |doc.sections| ==> CleanSection(doc.sections[i])
  }

  lemma {:induction false} RenderTrimSubs(subs: seq<Sub>)
    ensures RenderSubs(TrimSubs(subs)) == RenderSubs(subs)
    decreases subs
  {
    if subs != [] {
      RenderTrimSubs(subs[1..]);
      var lines := Trim(subs[0].lines);
      TrimTwice(subs[0].lines);
      if lines != [] {
        assert TrimSubs(subs)[1..] == TrimSubs(subs[1..]);
      } else {
        assert TrimSubs(subs) == TrimSubs(subs[1..]);
      }
    }
  }

  lemma {:induction false} RenderSame(a: seq<Section>, b: seq<Section>)
    requires |a| == |b| && forall i :: 0 <= i < |a| ==> RenderSection(a[i]) == RenderSection(b[i])
    ensures RenderSections(a) == RenderSections(b)
    decreases a
  {
    if a != [] { RenderSame(a[1..], b[1..]); }
  }

  /** Loose blank lines, and headings with nothing below, leave no trace in what is written. */
  lemma RenderTrim(doc: Doc)
    ensures Render(TrimDoc(doc)) == Render(doc)
  {
    var t := TrimDoc(doc);
    TrimTwice(doc.prefix);
    forall i | 0 <= i < |doc.sections| ensures RenderSection(t.sections[i]) == RenderSection(doc.sections[i]) {
      TrimTwice(doc.sections[i].leading);
      RenderTrimSubs(doc.sections[i].subs);
    }
    RenderSame(t.sections, doc.sections);
  }

  // ---------- Reading back ----------

  lemma {:induction false} TrimSubsCat(a: seq<Sub>, b: seq<Sub>)
    ensures TrimSubs(a + b) == TrimSubs(a) + TrimSubs(b)
    decreases a
  {
    if a == [] {
      assert a + b == b;
    } else {
      CatTail(a, b);
      TrimSubsCat(a[1..], b);
    }
  }

  /** Blank lines at the end of a section's body do not matter. */
  lemma {:induction false} SubsBlankEnd(body: Body, post: Body, at: nat)
    requires AllBlank(post)
    ensures var c, d := CutAt(body, IsCategory, at), CutAt(body + post, IsCategory, at);
            && TrimSubs(SubsOf(d.groups)) == TrimSubs(SubsOf(c.groups)) && |d.groups| == |c.groups|
            && d.lead == c.lead + (if c.groups == [] then post else [])
    decreases body
  {
    if body == [] {
      assert body + post == post;
      CutNone(post, IsCategory, at);
    } else {
      CatTail(body, post);
      SubsBlankEnd(body[1..], post, at + 1);
      var c, d := CutAt(body[1..], IsCategory, at + 1), CutAt(body[1..] + post, IsCategory, at + 1);
      if body[0].Category? {
        TrimAfter(c.lead, post);
        HeadSub(Group(body[0], c.lead, at + 1), c.groups);
        HeadSub(Group(body[0], d.lead, at + 1), d.groups);
        assert c.lead + [] == c.lead;
      } else {
        assert [body[0]] + (c.lead + post) == [body[0]] + c.lead + post;
        assert [body[0]] + (c.lead + []) == [body[0]] + c.lead + [];
      }
    }
  }

  lemma HeadSub(g: Group, gs: seq<Group>)
    ensures SubsOf([g] + gs) == [SubOf(g)] + SubsOf(gs)
    ensures TrimSubs(SubsOf([g] + gs)) == TrimSubs([SubOf(g)]) + TrimSubs(SubsOf(gs))
  {
    assert SubsOf([g] + gs) == [SubOf(g)] + SubsOf(gs);
    TrimSubsCat([SubOf(g)], SubsOf(gs));
  }

  lemma SectionBlankEnd(g: Group, post: Body)
    requires AllBlank(post)
    ensures TrimSection(SectionOf(Group(g.head, g.body + post, g.first))) == TrimSection(SectionOf(g))
  {
    SubsBlankEnd(g.body, post, g.first);
    var c := CutAt(g.body, IsCategory, g.first);
    TrimAfter(c.lead, post);
    assert c.lead + [] == c.lead;
  }

  function TrimSections(gs: seq<Group>): seq<Section> {
    seq(|gs|, i requires 0 <= i < |gs| => TrimSection(SectionOf(gs[i])))
  }

  /** Blank lines at the end of a file do not matter. */
  lemma {:induction false} CutBlankEnd(ls: Body, post: Body, at: nat)
    requires AllBlank(post)
    ensures var c, d := CutAt(ls, IsRelease, at), CutAt(ls + post, IsRelease, at);
            && TrimSections(d.groups) == TrimSections(c.groups)
            && d.lead == c.lead + (if c.groups == [] then post else [])
    decreases ls
  {
    if ls == [] {
      assert ls + post == post;
      CutNone(post, IsRelease, at);
    } else {
      CatTail(ls, post);
      CutBlankEnd(ls[1..], post, at + 1);
      var c, d := CutAt(ls[1..], IsRelease, at + 1), CutAt(ls[1..] + post, IsRelease, at + 1);
      assert |TrimSections(c.groups)| == |c.groups| && |TrimSections(d.groups)| == |d.groups|;
      if ls[0].Release? {
        SectionBlankEnd(Group(ls[0], c.lead, at + 1), post);
        TrimSectionsHead(Group(ls[0], c.lead, at + 1), c.groups);
        TrimSectionsHead(Group(ls[0], d.lead, at + 1), d.groups);
        assert c.lead + [] == c.lead;
      } else {
        assert [ls[0]] + (c.lead + post) == [ls[0]] + c.lead + post;
        assert [ls[0]] + (c.lead + []) == [ls[0]] + c.lead + [];
      }
    }
  }

  lemma TrimSectionsHead(g: Group, gs: seq<Group>)
    ensures TrimSections([g] + gs) == [TrimSection(SectionOf(g))] + TrimSections(gs)
  {
  }

  lemma {:induction false} TrimParse(ls: Body)
    ensures TrimDoc(Parse(ls)) == Doc(Trim(CutAt(ls, IsRelease, 1).lead), TrimSections(CutAt(ls, IsRelease, 1).groups))
  {
  }

  lemma ParseBlankEnd(ls: Body, post: Body)
    requires AllBlank(post)
    ensures TrimDoc(Parse(ls + post)) == TrimDoc(Parse(ls))
  {
    CutBlankEnd(ls, post, 1);
    TrimParse(ls);
    TrimParse(ls + post);
    var c := CutAt(ls, IsRelease, 1);
    TrimAfter(c.lead, post);
    assert c.lead + [] == c.lead;
  }

  lemma {:induction false} PopParts(ls: Body) returns (post: Body)
    ensures ls == Pop(ls) + post && AllBlank(post)
    decreases ls
  {
    if ls != [] && ls[|ls| - 1] == EMPTY {
      post := PopParts(ls[..|ls| - 1]);
      post := post + [EMPTY];
    } else {
      post := [];
    }
  }

  /** From the first category heading on: each heading, an empty line, its lines, an empty line. */
  function CategoryPart(subs: seq<Sub>): Body {
    if subs == [] then []
    else [Category(subs[0].title, "")] + ([EMPTY] + subs[0].lines + [EMPTY]) + CategoryPart(subs[1..])
  }

  lemma {:induction false} SubsPart(subs: seq<Sub>)
    requires forall j :: 0 <= j < |subs| ==> CleanSub(subs[j])
    ensures RenderSubs(subs) + [EMPTY] == [EMPTY] + CategoryPart(subs)
    ensures NoHead(CategoryPart(subs), IsRelease)
    decreases subs
  {
    if subs != [] {
      SubsPart(subs[1..]);
      TrimKeeps(subs[0].lines);
      var h := Category(subs[0].title, "");
      assert RenderSubs(subs) + [EMPTY] == [EMPTY, h, EMPTY] + subs[0].lines + (RenderSubs(subs[1..]) + [EMPTY]);
      assert [EMPTY] + CategoryPart(subs) == [EMPTY, h, EMPTY] + subs[0].lines + ([EMPTY] + CategoryPart(subs[1..]));
    }
  }

  lemma {:induction false} CategoryStep(s: Sub, rest: Body, at: nat, tail: seq<Sub>)
    requires CleanSub(s) && (rest == [] || rest[0].Category?)
    requires TrimSubs(SubsOf(CutAt(rest, IsCategory, at + 3 + |s.lines|).groups)) == tail
    ensures var c := CutAt([Category(s.title, "")] + ([EMPTY] + s.lines + [EMPTY]) + rest, IsCategory, at);
            c.lead == [] && TrimSubs(SubsOf(c.groups)) == [s] + tail
  {
    var h, body := Category(s.title, ""), [EMPTY] + s.lines + [EMPTY];
    CutGroup(h, body, rest, IsCategory, at);
    HeadSub(Group(h, body, at + 1), CutAt(rest, IsCategory, at + 1 + |body|).groups);
    OneSub(s, Group(h, body, at + 1));
  }

  lemma OneSub(s: Sub, g: Group)
    requires CleanSub(s) && g.head == Category(s.title, "") && g.body == [EMPTY] + s.lines + [EMPTY]
    ensures TrimSubs([SubOf(g)]) == [s]
  {
    TrimIs([EMPTY], s.lines, [EMPTY]);
    assert TrimSubs([SubOf(g)][1..]) == [];
  }

  lemma {:induction false} CategoriesRead(subs: seq<Sub>, at: nat)
    requires forall j :: 0 <= j < |subs| ==> CleanSub(subs[j])
    ensures CutAt(CategoryPart(subs), IsCategory, at).lead == []
    ensures TrimSubs(SubsOf(CutAt(CategoryPart(subs), IsCategory, at).groups)) == subs
    decreases subs
  {
    if subs != [] {
      CategoriesRead(subs[1..], at + 3 + |subs[0].lines|);
      CategoryStep(subs[0], CategoryPart(subs[1..]), at, subs[1..]);
      HeadAndTail(subs);
    }
  }

  function SectionBody(s: Section): Body {
    (if s.leading == [] then [] else [EMPTY] + s.leading) + [EMPTY] + CategoryPart(s.subs)
  }

  lemma SectionPart(s: Section)
    requires CleanSection(s)
    ensures RenderSection(s) == [s.heading] + SectionBody(s) && NoHead(SectionBody(s), IsRelease)
  {
    TrimKeeps(s.leading);
    SubsPart(s.subs);
    var pre: Body := if s.leading == [] then [] else [EMPTY] + s.leading;
    var subs, part := RenderSubs(s.subs), CategoryPart(s.subs);
    Assoc([s.heading], pre, subs + [EMPTY]);
    Assoc([s.heading] + pre, subs, [EMPTY]);
    Assoc(pre, [EMPTY], part);
  }

  lemma {:induction false} LeadReads(lead: Body, part: Body, at: nat, leading: Body, subs: seq<Sub>, h: Line)
    requires NoHead(lead, IsCategory) && (part == [] || part[0].Category?) && Trim(lead) == leading
    requires TrimSubs(SubsOf(CutAt(part, IsCategory, at + |lead|).groups)) == subs
    ensures TrimSection(SectionOf(Group(h, lead + part, at))) == Section(h, leading, subs)
  {
    CutCat(lead, part, IsCategory, at);
    CutNone(lead, IsCategory, at);
    var later := CutAt(part, IsCategory, at + |lead|).groups;
    assert [] + later == later;
  }

  lemma SectionReads(s: Section, at: nat)
    requires CleanSection(s)
    ensures TrimSection(SectionOf(Group(s.heading, SectionBody(s), at))) == s
  {
    var lead: Body := (if s.leading == [] then [] else [EMPTY] + s.leading) + [EMPTY];
    if s.leading == [] {
      TrimIs([EMPTY], [], []);
      assert [EMPTY] + [] + [] == lead;
    } else {
      TrimIs([EMPTY], s.leading, [EMPTY]);
    }
    CategoriesRead(s.subs, at + |lead|);
    LeadReads(lead, CategoryPart(s.subs), at, s.leading, s.subs, s.heading);
  }

  lemma {:induction false} SectionStep(s: Section, rest: Body, at: nat, tail: seq<Section>)
    requires CleanSection(s) && NoHead(SectionBody(s), IsRelease) && (rest == [] || rest[0].Release?)
    requires TrimSections(CutAt(rest, IsRelease, at + 1 + |SectionBody(s)|).groups) == tail
    ensures TrimSections(CutAt([s.heading] + SectionBody(s) + rest, IsRelease, at).groups) == [s] + tail
  {
    var body := SectionBody(s);
    CutGroup(s.heading, body, rest, IsRelease, at);
    TrimSectionsHead(Group(s.heading, body, at + 1), CutAt(rest, IsRelease, at + 1 + |body|).groups);
    SectionReads(s, at + 1);
  }

  lemma {:induction false} SectionsStart(ss: seq<Section>)
    requires forall i :: 0 <= i < |ss| ==> CleanSection(ss[i])
    ensures RenderSections(ss) == [] || RenderSections(ss)[0].Release?
    ensures ss != [] ==>
              RenderSections(ss) == [ss[0].heading] + SectionBody(ss[0]) + RenderSections(ss[1..])
  {
    if ss != [] { SectionPart(ss[0]); }
  }

  lemma {:induction false} SectionsRead(ss: seq<Section>, at: nat)
    requires forall i :: 0 <= i < |ss| ==> CleanSection(ss[i])
    ensures TrimSections(CutAt(RenderSections(ss), IsRelease, at).groups) == ss
    decreases ss
  {
    if ss != [] {
      SectionPart(ss[0]);
      SectionsStart(ss);
      SectionsStart(ss[1..]);
      SectionsRead(ss[1..], at + 1 + |SectionBody(ss[0])|);
      SectionStep(ss[0], RenderSections(ss[1..]), at, ss[1..]);
      HeadAndTail(ss);
    }
  }

  lemma {:induction false} PrefixReads(prefix: Body, part: Body, ss: seq<Section>)
    requires Trimmed(prefix) && NoHead(prefix, IsRelease) && (part == [] || part[0].Release?)
    requires forall at :: TrimSections(CutAt(part, IsRelease, at).groups) == ss
    ensures TrimDoc(Parse((if prefix == [] then [] else prefix + [EMPTY]) + part)) == Doc(prefix, ss)
  {
    var pre: Body := if prefix == [] then [] else prefix + [EMPTY];
    CutCat(pre, part, IsRelease, 1);
    CutNone(pre, IsRelease, 1);
    var later := CutAt(part, IsRelease, 1 + |pre|).groups;
    assert [] + later == later;
    TrimParse(pre + part);
    TrimAfter(prefix, [EMPTY]);
    TrimKeeps(prefix);
  }

  lemma AllReads(doc: Doc)
    requires Clean(doc)
    ensures TrimDoc(Parse(RenderAll(doc))) == doc
  {
    TrimKeeps(doc.prefix);
    forall at ensures TrimSections(CutAt(RenderSections(doc.sections), IsRelease, at).groups) == doc.sections {
      SectionsRead(doc.sections, at);
    }
    SectionsStart(doc.sections);
    PrefixReads(doc.prefix, RenderSections(doc.sections), doc.sections);
  }

  /** What is written reads back as the same document. */
  lemma ParseRender(doc: Doc)
    requires Clean(doc)
    ensures TrimDoc(Parse(Render(doc))) == doc
  {
    var all := RenderAll(doc);
    AllReads(doc);
    var post := PopParts(all);
    ParseBlankEnd(Pop(all), post);
    if Pop(all) == [] {
      ParseBlankEnd([], [EMPTY]);
      assert [] + [EMPTY] == [EMPTY];
    }
  }

  lemma TrimPlain(ls: Body)
    requires NoHead(ls, IsRelease) && NoHead(ls, IsCategory)
    ensures Plain(Trim(ls))
  {
    var pre, post := TrimParts(ls);
    forall i | 0 <= i < |Trim(ls)| ensures !Trim(ls)[i].Release? && !Trim(ls)[i].Category? {
      assert Trim(ls)[i] == ls[|pre| + i];
    }
  }

  lemma {:induction false} TrimSubsClean(subs: seq<Sub>)
    requires forall j :: 0 <= j < |subs| ==> NoHead(subs[j].lines, IsRelease) && NoHead(subs[j].lines, IsCategory)
    ensures forall j :: 0 <= j < |TrimSubs(subs)| ==> CleanSub(TrimSubs(subs)[j])
    decreases subs
  {
    if subs != [] {
      TrimPlain(subs[0].lines);
      TrimSubsClean(subs[1..]);
    }
  }

  lemma InNoHead(a: Body, b: Body, head: Line -> bool)
    requires NoHead(b, head) && forall l <- a :: l in b
    ensures NoHead(a, head)
  {
    forall i | 0 <= i < |a| ensures !head(a[i]) { assert a[i] in b; }
  }

  lemma SectionClean(g: Group)
    requires g.head.Release? && NoHead(g.body, IsRelease)
    ensures CleanSection(TrimSection(SectionOf(g)))
  {
    var c := CutAt(g.body, IsCategory, g.first);
    CutParts(g.body, IsCategory, g.first);
    InNoHead(c.lead, g.body, IsRelease);
    TrimPlain(c.lead);
    var subs := SubsOf(c.groups);
    forall j | 0 <= j < |subs| ensures NoHead(subs[j].lines, IsRelease) && NoHead(subs[j].lines, IsCategory) {
      assert subs[j].lines == c.groups[j].body;
      InNoHead(c.groups[j].body, g.body, IsRelease);
    }
    TrimSubsClean(subs);
  }

  lemma ParsedIsClean(ls: Body)
    ensures Clean(TrimDoc(Parse(ls)))
  {
    var c := CutAt(ls, IsRelease, 1);
    CutParts(ls, IsRelease, 1);
    TrimParse(ls);
    forall i | 0 <= i < |c.groups| ensures CleanSection(TrimSections(c.groups)[i]) { SectionClean(c.groups[i]); }
    var pre, post := TrimParts(c.lead);
    forall i | 0 <= i < |Trim(c.lead)|
      ensures !Trim(c.lead)[i].Release?
    { assert Trim(c.lead)[i] == c.lead[|pre| + i]; }
  }

  /** Reading and writing again changes nothing, whatever the input. */
  lemma RenderParseIdempotent(ls: Body)
    ensures Render(Parse(Render(Parse(ls)))) == Render(Parse(ls))
  {
    var doc := TrimDoc(Parse(ls));
    ParsedIsClean(ls);
    ParseRender(doc);
    RenderTrim(Parse(ls));
    RenderTrim(Parse(Render(doc)));
  }
}

/** How a changelog is laid out when it is written: `renderChangelog` of scripts/fix-changelogs.ts. */
module ChangelogLayout {
  import opened Common
  import opened ChangelogItems
  import opened ChangelogText

  predicate IsHeading(l: Line) {
    l.Release? || l.Category?
  }

  /** Line `i` has one empty line before it and one behind it, and no more. */
  predicate StandsApart(ls: Body, i: nat)
    requires i < |ls|
  {
    && (i > 0 ==> ls[i - 1] == EMPTY) && (i > 1 ==> !ls[i - 2].Blank?)
    && (i + 1 < |ls| ==> ls[i + 1] == EMPTY) && (i + 2 < |ls| ==> !ls[i + 2].Blank?)
  }

  /** So do all headings. */
  predicate Laid(ls: Body) {
    forall i :: 0 <= i < |ls| && IsHeading(ls[i]) ==> StandsApart(ls, i)
  }

  /** What was in front of the releases, an empty line, and then text in which all headings do; it
      does not end in a blank line. */
  ghost predicate LaidOut(out: Body, prefix: Body) {
    (out == [EMPTY] || EndsSolid(out)) && exists k: nat :: LaidFrom(out, prefix, k)
  }

  predicate LaidFrom(out: Body, prefix: Body, k: nat) {
    && k <= |out| && Laid(out[k..])
    && (if prefix == [] then k == 0
        else if k == |out| then out == prefix else out[..k] == prefix + [EMPTY])
  }

  predicate EndsSolid(ls: Body) {
    ls != [] && !ls[|ls| - 1].Blank?
  }

  predicate NoHeading(ls: Body) {
    forall i :: 0 <= i < |ls| ==> !IsHeading(ls[i])
  }

  /** A body behind a heading or another body, with an empty line between. */
  lemma LaidBody(a: Body, lines: Body)
    requires Laid(a) && EndsSolid(a) && lines != [] && Trimmed(lines) && NoHeading(lines)
    ensures Laid(a + [EMPTY] + lines) && EndsSolid(a + [EMPTY] + lines)
    ensures (a + [EMPTY] + lines)[0] == a[0]
  {
    var out := a + [EMPTY] + lines;
    forall i | 0 <= i < |out| && IsHeading(out[i]) ensures StandsApart(out, i) {
      assert i < |a| && out[i] == a[i];
      assert StandsApart(a, i);
    }
  }

  /** A category heading behind a body. */
  lemma LaidHeading(a: Body, h: Line)
    requires Laid(a) && EndsSolid(a) && IsHeading(h)
    ensures Laid(a + [EMPTY] + [h]) && EndsSolid(a + [EMPTY] + [h])
    ensures (a + [EMPTY] + [h])[0] == a[0]
  {
    var out := a + [EMPTY] + [h];
    forall i | 0 <= i < |out| && IsHeading(out[i]) ensures StandsApart(out, i) {
      if i < |a| { assert StandsApart(a, i); }
    }
  }

  lemma {:induction false} LaidSubs(a: Body, subs: seq<Sub>)
    requires Laid(a) && EndsSolid(a) && forall j :: 0 <= j < |subs| ==> NoHeading(Trim(subs[j].lines))
    ensures Laid(a + RenderSubs(subs)) && EndsSolid(a + RenderSubs(subs)) && (a + RenderSubs(subs))[0] == a[0]
    decreases subs
  {
    if subs == [] {
      assert a + RenderSubs(subs) == a;
    } else {
      var lines := Trim(subs[0].lines);
      if lines == [] {
        LaidSubs(a, subs[1..]);
        assert [] + RenderSubs(subs[1..]) == RenderSubs(subs[1..]);
      } else {
        var h := Category(subs[0].title, "");
        TrimTwice(subs[0].lines);
        LaidHeading(a, h);
        LaidBody(a + [EMPTY] + [h], lines);
        LaidSubs(a + [EMPTY] + [h] + [EMPTY] + lines, subs[1..]);
        SubsJoined(a, h, lines, RenderSubs(subs[1..]));
      }
    }
  }

  lemma SubsJoined(a: Body, h: Line, lines: Body, rest: Body)
    ensures a + (([EMPTY, h, EMPTY] + lines) + rest) == a + [EMPTY] + [h] + [EMPTY] + lines + rest
  {
  }

  lemma LaidFirst(h: Line)
    requires IsHeading(h)
    ensures Laid([h]) && EndsSolid([h])
  {
  }

  /** A section's text but for the empty line at its end. */
  function SectionText(s: Section): Body {
    var leading := Trim(s.leading);
    [s.heading] + (if leading == [] then [] else [EMPTY] + leading) + RenderSubs(s.subs)
  }

  predicate Heads(s: Section) {
    && s.heading.Release? && NoHeading(Trim(s.leading))
    && forall j :: 0 <= j < |s.subs| ==> NoHeading(Trim(s.subs[j].lines))
  }

  /** Text that begins with a heading and is laid out well. */
  predicate Block(ls: Body) {
    Laid(ls) && EndsSolid(ls) && IsHeading(ls[0])
  }

  lemma SectionLaid(s: Section)
    requires Heads(s)
    ensures Block(SectionText(s)) && RenderSection(s) == SectionText(s) + [EMPTY]
  {
    var leading := Trim(s.leading);
    LaidFirst(s.heading);
    TrimTwice(s.leading);
    if leading == [] {
      assert [s.heading] + [] == [s.heading];
      LaidSubs([s.heading], s.subs);
    } else {
      LaidBody([s.heading], leading);
      LaidSubs([s.heading] + [EMPTY] + leading, s.subs);
      assert [s.heading] + ([EMPTY] + leading) == [s.heading] + [EMPTY] + leading;
    }
  }

  lemma BlocksJoin(a: Body, b: Body)
    requires Block(a) && Block(b)
    ensures Block(a + [EMPTY] + b)
  {
    var out := a + [EMPTY] + b;
    forall i | 0 <= i < |out| && IsHeading(out[i]) ensures StandsApart(out, i) {
      if i < |a| { assert StandsApart(a, i); } else { assert out[i] == b[i - |a| - 1] && StandsApart(b, i - |a| - 1); }
    }
  }

  function SectionsText(ss: seq<Section>): Body
    requires ss != []
  {
    if |ss| == 1 then SectionText(ss[0]) else SectionText(ss[0]) + [EMPTY] + SectionsText(ss[1..])
  }

  lemma {:induction false} SectionsLaid(ss: seq<Section>)
    requires ss != [] && forall i :: 0 <= i < |ss| ==> Heads(ss[i])
    ensures Block(SectionsText(ss)) && RenderSections(ss) == SectionsText(ss) + [EMPTY]
    decreases ss
  {
    SectionLaid(ss[0]);
    if |ss| == 1 {
      assert RenderSections(ss[1..]) == [];
    } else {
      SectionsLaid(ss[1..]);
      BlocksJoin(SectionText(ss[0]), SectionsText(ss[1..]));
      Assoc(SectionText(ss[0]) + [EMPTY], SectionsText(ss[1..]), [EMPTY]);
    }
  }

  lemma {:induction false} PopEmpty(ls: Body)
    requires EndsSolid(ls)
    ensures Pop(ls + [EMPTY]) == ls
  {
    MoreInit(ls, EMPTY);
  }

  /** Written headings stand apart, whatever blank lines were there before. */
  lemma {:induction false} RenderLaid(doc: Doc)
    requires forall i :: 0 <= i < |doc.sections| ==> Heads(doc.sections[i])
    ensures LaidOut(Render(doc), Trim(doc.prefix))
  {
    var prefix := Trim(doc.prefix);
    TrimTwice(doc.prefix);
    if doc.sections == [] {
      assert RenderAll(doc) == if prefix == [] then [] else prefix + [EMPTY];
      if prefix == [] {
        assert LaidFrom([EMPTY], prefix, 0);
      } else {
        PopEmpty(prefix);
        assert LaidFrom(prefix, prefix, |prefix|);
      }
    } else {
      var text := SectionsText(doc.sections);
      SectionsLaid(doc.sections);
      if prefix == [] {
        assert RenderAll(doc) == text + [EMPTY];
        PopEmpty(text);
        assert LaidFrom(text, prefix, 0);
      } else {
        PopEmpty(prefix + [EMPTY] + text);
        Assoc(prefix + [EMPTY], text, [EMPTY]);
        BehindPrefix(prefix, text);
      }
    }
  }

  lemma BehindPrefix(prefix: Body, text: Body)
    requires Block(text) && prefix != []
    ensures LaidFrom(prefix + [EMPTY] + text, prefix, |prefix| + 1) && EndsSolid(prefix + [EMPTY] + text)
  {
    assert (prefix + [EMPTY] + text)[|prefix| + 1..] == text;
  }
}

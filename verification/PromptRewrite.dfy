/** Rewriting the prose of a prompt file with a model that may answer anything, in any order:
    scripts/rewrite-system-prompt.ts. */
module PromptRewrite {
  import opened Common
  import opened PromptText
  import opened PromptPool

  // ---------- The plan ----------

  datatype Entry = Entry(lineIndex: nat, prefix: string, suffix: string, core: string, tokens: seq<string>)

  /** How long a match each of the patterns has in a string: a block at its end, one at its
      start, a list marker at its start; 0 for none. */
  datatype Patterns = Patterns(trailing: string -> nat, leading: string -> nat, marker: string -> nat)

  ghost predicate Fits(p: Patterns) {
    forall s :: p.trailing(s) <= |s| && p.leading(s) <= |s| && p.marker(s) <= |s|
  }

  /** The line without the blocks at its end, then without those at its start, then without the
      list marker. */
  ghost function Untailed(s: string, p: Patterns): string
    requires Fits(p)
    decreases |s|
  {
    if p.trailing(s) > 0 then Untailed(s[..|s| - p.trailing(s)], p) else s
  }

  ghost function Unheaded(s: string, p: Patterns): string
    requires Fits(p)
    decreases |s|
  {
    if p.leading(s) > 0 then Unheaded(s[p.leading(s)..], p) else s
  }

  ghost function Core(line: string, p: Patterns): string
    requires Fits(p)
  {
    var s := Unheaded(Untailed(line, p), p);
    s[p.marker(s)..]
  }

  /** The prefix ends with the list marker, if there is one, where no further block begins. */
  ghost predicate MarkerAt(prefix: string, core: string, p: Patterns, n: nat) {
    n <= |prefix| && p.leading(prefix[n..] + core) == 0 && p.marker(prefix[n..] + core) == |prefix| - n
  }

  lemma MarkerIs(heads: string, s: string, p: Patterns)
    requires Fits(p) && p.leading(s) == 0
    ensures MarkerAt(heads + s[..p.marker(s)], s[p.marker(s)..], p, |heads|)
  {
    var m := p.marker(s);
    assert (heads + s[..m])[|heads|..] == s[..m] && s[..m] + s[m..] == s;
  }

  lemma MoveRight(s: string, b: string, m: nat)
    requires m <= |s|
    ensures s[..|s| - m] + (s[|s| - m..] + b) == s + b
  {
    assert s == s[..|s| - m] + s[|s| - m..];
  }

  lemma MoveLeft(a: string, s: string, b: string, m: nat)
    requires m <= |s|
    ensures (a + s[..m]) + s[m..] + b == a + s + b && (a + s[..m]) + s[m..] == a + s
  {
    assert s == s[..m] + s[m..];
  }

  ghost predicate TailOff(line: string, s: string, suffix: string, p: Patterns)
    requires Fits(p)
  {
    s + suffix == line && Untailed(s, p) == Untailed(line, p)
  }

  ghost predicate HeadOff(line: string, prefix: string, s: string, suffix: string, p: Patterns)
    requires Fits(p)
  {
    && prefix + s + suffix == line && Unheaded(s, p) == Unheaded(Untailed(line, p), p)
    && p.trailing(prefix + s) == 0
  }

  lemma TailStep(line: string, s: string, suffix: string, p: Patterns)
    requires Fits(p) && TailOff(line, s, suffix, p) && p.trailing(s) > 0
    ensures var m := p.trailing(s); TailOff(line, s[..|s| - m], s[|s| - m..] + suffix, p)
  {
    MoveRight(s, suffix, p.trailing(s));
  }

  lemma HeadStart(line: string, s: string, suffix: string, p: Patterns)
    requires Fits(p) && TailOff(line, s, suffix, p) && p.trailing(s) == 0
    ensures HeadOff(line, "", s, suffix, p)
  {
    assert "" + s == s;
  }

  lemma HeadStep(line: string, prefix: string, s: string, suffix: string, p: Patterns)
    requires Fits(p) && HeadOff(line, prefix, s, suffix, p) && p.leading(s) > 0
    ensures var m := p.leading(s); HeadOff(line, prefix + s[..m], s[m..], suffix, p)
  {
    MoveLeft(prefix, s, suffix, p.leading(s));
  }

  lemma MarkerOff(line: string, prefix: string, s: string, suffix: string, p: Patterns)
    requires Fits(p) && HeadOff(line, prefix, s, suffix, p) && p.leading(s) == 0
    ensures var m := p.marker(s);
            Peeled(line, prefix + s[..m], s[m..], suffix, p) && s[m..] == Core(line, p)
  {
    var m := p.marker(s);
    MoveLeft(prefix, s, suffix, m);
    MarkerIs(prefix, s, p);
    assert MarkerAt(prefix + s[..m], s[m..], p, |prefix|);
  }

  /** Nothing is lost; no block is left at the end, and none at the start before the marker. */
  ghost predicate Peeled(line: string, prefix: string, core: string, suffix: string, p: Patterns) {
    prefix + core + suffix == line && p.trailing(prefix + core) == 0 && exists n: nat :: MarkerAt(prefix, core, p, n)
  }

  /** A line is taken apart without losing a character, down to its core. */
  method Peel(line: string, p: Patterns) returns (prefix: string, core: string, suffix: string)
    requires Fits(p)
    ensures Peeled(line, prefix, core, suffix, p) && core == Core(line, p)
  {
    var s := line;
    suffix := "";
    assert TailOff(line, s, suffix, p);
    while p.trailing(s) > 0
      invariant TailOff(line, s, suffix, p)
      decreases |s|
    {
      TailStep(line, s, suffix, p);
      suffix := s[|s| - p.trailing(s)..] + suffix;
      s := s[..|s| - p.trailing(s)];
    }
    prefix := "";
    HeadStart(line, s, suffix, p);
    while p.leading(s) > 0
      invariant HeadOff(line, prefix, s, suffix, p)
      decreases |s|
    {
      HeadStep(line, prefix, s, suffix, p);
      prefix := prefix + s[..p.leading(s)];
      s := s[p.leading(s)..];
    }
    MarkerOff(line, prefix, s, suffix, p);
    prefix := prefix + s[..p.marker(s)];
    core := s[p.marker(s)..];
  }

  predicate Rises(prose: seq<Entry>) {
    forall i, j :: 0 <= i < j < |prose| ==> prose[i].lineIndex < prose[j].lineIndex
  }

  predicate GoodEntry(e: Entry, lines: seq<string>) {
    && e.lineIndex < |lines| && e.prefix + e.core + e.suffix == lines[e.lineIndex]
    && forall i :: 0 <= i < |e.tokens| ==> e.tokens[i] != []
  }

  predicate GoodPlan(prose: seq<Entry>, lines: seq<string>) {
    Rises(prose) && forall i :: 0 <= i < |prose| ==> GoodEntry(prose[i], lines)
  }

  /** The lines with something to rewrite. */
  ghost predicate Wanted(lines: seq<string>, i: nat, prosy: nat -> bool, p: Patterns, blank: string -> bool)
    requires Fits(p)
  {
    i < |lines| && prosy(i) && !blank(Core(lines[i], p))
  }

  ghost predicate PlannedTo(prose: seq<Entry>, lines: seq<string>, n: nat, prosy: nat -> bool, p: Patterns,
                            blank: string -> bool, tokensOf: string -> seq<string>)
    requires Fits(p)
  {
    && GoodPlan(prose, lines) && (forall e <- prose :: PlannedAs(e, lines, n, prosy, p, blank, tokensOf))
    && forall i :: 0 <= i < n && Wanted(lines, i, prosy, p, blank) ==> exists k :: 0 <= k < |prose| && prose[k].lineIndex == i
  }

  ghost predicate PlannedAs(e: Entry, lines: seq<string>, n: nat, prosy: nat -> bool, p: Patterns,
                            blank: string -> bool, tokensOf: string -> seq<string>)
    requires Fits(p)
  {
    && e.lineIndex < n && Wanted(lines, e.lineIndex, prosy, p, blank)
    && e.core == Core(lines[e.lineIndex], p) && e.tokens == tokensOf(e.core)
  }

  /** The plan has an entry for every line of prose with a core that is not blank, in order, and
      no other. `prosy` tells which lines are prose; `blank` and `tokensOf` look at the core. */
  method PlanRewrite(lines: seq<string>, prosy: nat -> bool, p: Patterns, blank: string -> bool,
                     tokensOf: string -> seq<string>) returns (prose: seq<Entry>)
    requires Fits(p) && forall s, i | 0 <= i < |tokensOf(s)| :: tokensOf(s)[i] != []
    ensures PlannedTo(prose, lines, |lines|, prosy, p, blank, tokensOf)
  {
    prose := [];
    var i := 0;
    while i < |lines|
      invariant 0 <= i <= |lines| && PlannedTo(prose, lines, i, prosy, p, blank, tokensOf)
    {
      ghost var before := prose;
      if prosy(i) {
        var prefix, core, suffix := Peel(lines[i], p);
        if !blank(core) { prose := prose + [Entry(i, prefix, suffix, core, tokensOf(core))]; }
      }
      PlanStep(before, prose, lines, i, prosy, p, blank, tokensOf);
      i := i + 1;
    }
  }

  /** Looking at line `i` adds its entry, if it is to have one. */
  lemma PlanStep(before: seq<Entry>, prose: seq<Entry>, lines: seq<string>, i: nat, prosy: nat -> bool, p: Patterns,
                 blank: string -> bool, tokensOf: string -> seq<string>)
    requires Fits(p) && i < |lines| && PlannedTo(before, lines, i, prosy, p, blank, tokensOf)
    requires if Wanted(lines, i, prosy, p, blank)
             then |prose| > 0 && prose == before + [prose[|prose| - 1]] && prose[|prose| - 1].lineIndex == i
                  && PlannedAs(prose[|prose| - 1], lines, i + 1, prosy, p, blank, tokensOf)
                  && GoodEntry(prose[|prose| - 1], lines)
             else prose == before
    ensures PlannedTo(prose, lines, i + 1, prosy, p, blank, tokensOf)
  {
    if Wanted(lines, i, prosy, p, blank) { PlanMore(before, prose[|before|], lines, i, prosy, p, blank, tokensOf); }
  }

  lemma PlanMore(prose: seq<Entry>, e: Entry, lines: seq<string>, i: nat, prosy: nat -> bool, p: Patterns,
                 blank: string -> bool, tokensOf: string -> seq<string>)
    requires Fits(p) && PlannedTo(prose, lines, i, prosy, p, blank, tokensOf)
    requires e.lineIndex == i && PlannedAs(e, lines, i + 1, prosy, p, blank, tokensOf) && GoodEntry(e, lines)
    ensures PlannedTo(prose + [e], lines, i + 1, prosy, p, blank, tokensOf)
  {
    var more := prose + [e];
    forall k | 0 <= k < i + 1 && Wanted(lines, k, prosy, p, blank)
      ensures exists j :: 0 <= j < |more| && more[j].lineIndex == k
    {
      if k < i {
        var j :| 0 <= j < |prose| && prose[j].lineIndex == k;
        assert more[j].lineIndex == k;
      } else {
        assert more[|prose|].lineIndex == k;
      }
    }
    forall k | 0 <= k < |prose| ensures prose[k].lineIndex < i { assert prose[k] in prose; }
  }

  // ---------- Groups ----------

  function Flatten<T>(groups: seq<seq<T>>): seq<T> {
    if groups == [] then [] else Flatten(groups[..|groups| - 1]) + groups[|groups| - 1]
  }

  ghost predicate AllFull(groups: seq<seq<Entry>>, step: nat) {
    forall i :: 0 <= i < |groups| ==> |groups[i]| == step
  }

  /** Where the loop over the entries is: at an index, or past the end, with the last group cut. */
  ghost predicate ChunkedTo(items: seq<Entry>, step: nat, groups: seq<seq<Entry>>, i: nat) {
    if i <= |items| then Flatten(groups) == items[..i] && AllFull(groups, step)
    else
      && Flatten(groups) == items && groups != [] && 1 <= |groups[|groups| - 1]| <= step
      && AllFull(groups[..|groups| - 1], step)
  }

  lemma ChunkStep(items: seq<Entry>, step: nat, groups: seq<seq<Entry>>, i: nat, group: seq<Entry>)
    requires i < |items| && step >= 1 && ChunkedTo(items, step, groups, i)
    requires group == items[i..Min(i + step, |items|)]
    ensures ChunkedTo(items, step, groups + [group], i + step)
  {
    var end := Min(i + step, |items|);
    MoreInit(groups, group);
    assert items[..end] == items[..i] + items[i..end];
    TakeAll(items, |items|);
  }

  /** The groups are the entries in order, all but the last of the size asked for. */
  method Chunk(items: seq<Entry>, size: int) returns (groups: seq<seq<Entry>>)
    ensures Flatten(groups) == items
    ensures forall g <- groups :: 1 <= |g| <= Max(size, 1)
    ensures forall i :: 0 <= i < |groups| - 1 ==> |groups[i]| == Max(size, 1)
  {
    groups := [];
    var step: nat := Max(size, 1);
    var i := 0;
    while i < |items|
      invariant 0 <= i && ChunkedTo(items, step, groups, i)
    {
      var group := items[i..Min(i + step, |items|)];
      ChunkStep(items, step, groups, i, group);
      groups := groups + [group];
      i := i + step;
    }
    TakeAll(items, |items|);
  }

  // ---------- Asking the model ----------

  /** What one request brings back: nothing if it failed, else some texts by id. */
  type Reply = Option<map<nat, string>>

  ghost predicate HasTokens(e: Entry) {
    forall i :: 0 <= i < |e.tokens| ==> e.tokens[i] != []
  }

  ghost function Accepted(e: Entry, reply: Reply): Option<string>
    requires HasTokens(e)
  {
    if reply.Some? && e.lineIndex in reply.value && Preserves(reply.value[e.lineIndex], e.tokens)
    then Some(reply.value[e.lineIndex])
    else None
  }

  /** The first answer for this entry that keeps its tokens. */
  ghost function FirstAccepted(e: Entry, replies: seq<Reply>): Option<string>
    requires HasTokens(e)
  {
    if replies == [] then None
    else
      var k := |replies| - 1;
      var before := FirstAccepted(e, replies[..k]);
      if before.Some? then before else Accepted(e, replies[k])
  }

  lemma {:induction false} AcceptedStays(e: Entry, replies: seq<Reply>, k: nat)
    requires HasTokens(e) && k <= |replies| && FirstAccepted(e, replies[..k]).Some?
    ensures FirstAccepted(e, replies) == FirstAccepted(e, replies[..k])
    decreases |replies|
  {
    if k < |replies| {
      assert replies[..|replies| - 1][..k] == replies[..k];
      AcceptedStays(e, replies[..|replies| - 1], k);
    } else {
      TakeAll(replies, k);
    }
  }

  ghost predicate ItemsGood(items: seq<Entry>) {
    && (forall i :: 0 <= i < |items| ==> HasTokens(items[i]))
    && (forall i, j :: 0 <= i < j < |items| ==> items[i].lineIndex != items[j].lineIndex)
  }

  function Lookup(m: map<nat, string>, id: nat): Option<string> {
    if id in m then Some(m[id]) else None
  }

  /** Where each item stands after the replies so far: answered, or still to be asked for. */
  ghost predicate Standing(items: seq<Entry>, replies: seq<Reply>, result: map<nat, string>, pending: seq<Entry>)
    requires ItemsGood(items)
  {
    && (forall i :: 0 <= i < |items| ==> Lookup(result, items[i].lineIndex) == FirstAccepted(items[i], replies))
    && (forall i :: 0 <= i < |items| ==> (items[i] in pending <==> FirstAccepted(items[i], replies).None?))
    && (forall e <- pending :: e in items)
    && (forall id <- result :: exists i :: 0 <= i < |items| && items[i].lineIndex == id)
  }

  lemma SameItem(items: seq<Entry>, i: nat, e: Entry)
    requires ItemsGood(items) && i < |items| && e in items && e.lineIndex == items[i].lineIndex
    ensures e == items[i]
  {
    var j :| 0 <= j < |items| && items[j] == e;
  }

  /** One reply has been looked through for the items `asked`. */
  ghost predicate LookedThrough(asked: seq<Entry>, got: map<nat, string>, result0: map<nat, string>,
                                result: map<nat, string>, still: seq<Entry>) {
    && (forall id :: Lookup(result, id) ==
          if id in got && Taken(asked, id, got) then Some(got[id]) else Lookup(result0, id))
    && (forall e :: e in still <==> e in asked && (HasTokens(e) ==> Accepted(e, Some(got)).None?))
  }

  lemma LookAtOne(asked: seq<Entry>, p: Entry, got: map<nat, string>, result0: map<nat, string>,
                  result: map<nat, string>, still: seq<Entry>)
    requires HasTokens(p) && LookedThrough(asked, got, result0, result, still)
    ensures Accepted(p, Some(got)).Some? ==>
              LookedThrough(asked + [p], got, result0, result[p.lineIndex := got[p.lineIndex]], still)
    ensures Accepted(p, Some(got)).None? ==> LookedThrough(asked + [p], got, result0, result, still + [p])
  {
    forall id ensures Taken(asked + [p], id, got)
                 <==> Taken(asked, id, got) || (id == p.lineIndex && Accepted(p, Some(got)).Some?)
    { TakenMore(asked, p, id, got); }
  }

  /** One reply, looked through for every pending item. */
  method TakeReply(ghost items: seq<Entry>, ghost replies: seq<Reply>, pending: seq<Entry>, got: map<nat, string>,
                   result0: map<nat, string>)
    returns (result: map<nat, string>, still: seq<Entry>)
    requires ItemsGood(items) && Standing(items, replies, result0, pending)
    ensures Standing(items, replies + [Some(got)], result, still)
  {
    result, still := result0, [];
    var i := 0;
    assert LookedThrough([], got, result0, result, still);
    AllHaveTokens(items, pending);
    while i < |pending|
      invariant 0 <= i <= |pending| && LookedThrough(pending[..i], got, result0, result, still)
    {
      var p := pending[i];
      assert HasTokens(p);
      TakeMore(pending, i);
      LookAtOne(pending[..i], p, got, result0, result, still);
      var ok := false;
      if p.lineIndex in got { ok := PreservesTokens(got[p.lineIndex], p.tokens); }
      if ok {
        result := result[p.lineIndex := got[p.lineIndex]];
      } else {
        still := still + [p];
      }
      i := i + 1;
    }
    TakeAll(pending, i);
    SortedOut(items, replies, pending, got, result0, result, still);
  }

  lemma AllHaveTokens(items: seq<Entry>, pending: seq<Entry>)
    requires ItemsGood(items) && forall e <- pending :: e in items
    ensures forall i :: 0 <= i < |pending| ==> HasTokens(pending[i])
  {
    forall i | 0 <= i < |pending| ensures HasTokens(pending[i]) {
      assert pending[i] in items;
      var k :| 0 <= k < |items| && items[k] == pending[i];
    }
  }

  ghost predicate Taken(asked: seq<Entry>, id: nat, got: map<nat, string>) {
    exists e :: e in asked && e.lineIndex == id && HasTokens(e) && Accepted(e, Some(got)).Some?
  }

  lemma TakenMore(asked: seq<Entry>, p: Entry, id: nat, got: map<nat, string>)
    requires HasTokens(p)
    ensures Taken(asked + [p], id, got)
       <==> Taken(asked, id, got) || (id == p.lineIndex && Accepted(p, Some(got)).Some?)
  {
    if Taken(asked, id, got) {
      var e :| e in asked && e.lineIndex == id && HasTokens(e) && Accepted(e, Some(got)).Some?;
      assert e in asked + [p];
    }
    if id == p.lineIndex && Accepted(p, Some(got)).Some? { assert p in asked + [p]; }
  }

  lemma SortedOut(items: seq<Entry>, replies: seq<Reply>, pending: seq<Entry>, got: map<nat, string>,
                  result0: map<nat, string>, result: map<nat, string>, still: seq<Entry>)
    requires ItemsGood(items) && Standing(items, replies, result0, pending)
    requires LookedThrough(pending, got, result0, result, still)
    ensures Standing(items, replies + [Some(got)], result, still)
  {
    var more := replies + [Some(got)];
    assert more[..|replies|] == replies;
    forall i | 0 <= i < |items|
      ensures Lookup(result, items[i].lineIndex) == FirstAccepted(items[i], more)
      ensures items[i] in still <==> FirstAccepted(items[i], more).None?
    {
      TakenIsPending(items, pending, i, got);
    }
    forall id <- result ensures exists i :: 0 <= i < |items| && items[i].lineIndex == id {
      assert Lookup(result, id).Some?;
      if Taken(pending, id, got) {
        var e :| e in pending && e.lineIndex == id;
        var i :| 0 <= i < |items| && items[i] == e;
      } else {
        assert id in result0;
      }
    }
  }

  lemma TakenIsPending(items: seq<Entry>, pending: seq<Entry>, i: nat, got: map<nat, string>)
    requires ItemsGood(items) && i < |items| && forall e <- pending :: e in items
    ensures Taken(pending, items[i].lineIndex, got) <==> items[i] in pending && Accepted(items[i], Some(got)).Some?
  {
    if Taken(pending, items[i].lineIndex, got) {
      var e :| e in pending && e.lineIndex == items[i].lineIndex && HasTokens(e) && Accepted(e, Some(got)).Some?;
      SameItem(items, i, e);
    }
  }

  lemma NoReply(items: seq<Entry>, replies: seq<Reply>, result: map<nat, string>, pending: seq<Entry>)
    requires ItemsGood(items) && Standing(items, replies, result, pending)
    ensures Standing(items, replies + [None], result, pending)
  {
    MoreInit(replies, None);
  }

  lemma NothingPending(items: seq<Entry>, replies: seq<Reply>, k: nat, result: map<nat, string>)
    requires ItemsGood(items) && k <= |replies| && Standing(items, replies[..k], result, [])
    ensures Standing(items, replies, result, [])
  {
    forall i | 0 <= i < |items|
      ensures FirstAccepted(items[i], replies) == FirstAccepted(items[i], replies[..k])
    {
      assert items[i] !in [];
      AcceptedStays(items[i], replies, k);
    }
  }

  /** Asking again, at most `retries` times, for what has not come back whole: each item gets
      the first answer that keeps its tokens, or none. */
  method RewriteChunk(items: seq<Entry>, replies: seq<Reply>, retries: nat) returns (result: map<nat, string>)
    requires ItemsGood(items) && |replies| == retries + 1
    ensures forall i :: 0 <= i < |items| ==> Lookup(result, items[i].lineIndex) == FirstAccepted(items[i], replies)
    ensures forall id <- result :: exists i :: 0 <= i < |items| && items[i].lineIndex == id
  {
    result := map[];
    var pending := items;
    var attempt := 0;
    while attempt <= retries && pending != []
      invariant 0 <= attempt <= retries + 1 && Standing(items, replies[..attempt], result, pending)
    {
      TakeMore(replies, attempt);
      match replies[attempt] {
        case None => NoReply(items, replies[..attempt], result, pending);
        case Some(got) => result, pending := TakeReply(items, replies[..attempt], pending, got, result);
      }
      attempt := attempt + 1;
    }
    if pending == [] {
      NothingPending(items, replies, attempt, result);
    } else {
      TakeAll(replies, attempt);
    }
  }

  lemma {:induction false} FirstAcceptedPreserves(e: Entry, replies: seq<Reply>)
    requires HasTokens(e) && FirstAccepted(e, replies).Some?
    ensures Preserves(FirstAccepted(e, replies).value, e.tokens)
    decreases |replies|
  {
    var k := |replies| - 1;
    if FirstAccepted(e, replies[..k]).Some? { FirstAcceptedPreserves(e, replies[..k]); }
  }

  // ---------- Putting the file together ----------

  datatype Done = Done(entry: Entry, text: string, ok: bool)

  /** What a group's call stores, given the answers to its requests. */
  ghost function Resolve(group: seq<Entry>, replies: seq<Reply>): seq<Done>
    requires forall i :: 0 <= i < |group| ==> HasTokens(group[i])
  {
    seq(|group|, i requires 0 <= i < |group| =>
      match FirstAccepted(group[i], replies)
      case Some(text) => Done(group[i], text, true)
      case None => Done(group[i], group[i].core, false))
  }

  // ---------- Which answer gets in ----------

  /** The reply to attempt `k` has a text for the entry that holds every token as often as the
      original. */
  ghost predicate Answers(e: Entry, replies: seq<Reply>, k: nat) {
    k < |replies| && replies[k].Some? && e.lineIndex in replies[k].value && HasTokens(e) &&
    forall t <- e.tokens :: Count(replies[k].value[e.lineIndex], t) >= multiset(e.tokens)[t]
  }

  ghost predicate FirstAnswer(e: Entry, replies: seq<Reply>, k: nat) {
    Answers(e, replies, k) && forall j: nat :: j < k ==> !Answers(e, replies, j)
  }

  ghost predicate Unanswered(e: Entry, replies: seq<Reply>) {
    forall k: nat :: !Answers(e, replies, k)
  }

  /** The first text that will do stands in the line; without one the line stays. */
  ghost predicate Settled(e: Entry, replies: seq<Reply>, was: string, now: string) {
    && (forall k: nat :: FirstAnswer(e, replies, k) ==> now == e.prefix + replies[k].value[e.lineIndex] + e.suffix)
    && (Unanswered(e, replies) ==> now == was)
  }

  lemma AnswersIs(e: Entry, replies: seq<Reply>, k: nat)
    requires HasTokens(e) && k < |replies|
    ensures Answers(e, replies, k) <==> Accepted(e, replies[k]).Some?
    ensures Answers(e, replies, k) ==> Accepted(e, replies[k]) == Some(replies[k].value[e.lineIndex])
  {
    if Answers(e, replies, k) {
      var text := replies[k].value[e.lineIndex];
      forall i | 0 <= i < |e.tokens| ensures Count(text, e.tokens[i]) >= multiset(e.tokens)[e.tokens[i]] {
        assert e.tokens[i] in e.tokens;
      }
    }
  }

  lemma AnswersBefore(e: Entry, replies: seq<Reply>, n: nat, k: nat)
    requires n <= |replies|
    ensures Answers(e, replies[..n], k) <==> k < n && Answers(e, replies, k)
  {
    if k < n { assert replies[..n][k] == replies[k]; }
  }

  lemma FirstBefore(e: Entry, replies: seq<Reply>, n: nat)
    requires n <= |replies|
    ensures forall k: nat :: FirstAnswer(e, replies, k) && k < n ==> FirstAnswer(e, replies[..n], k)
    ensures Unanswered(e, replies[..n]) <==> forall k: nat :: k < n ==> !Answers(e, replies, k)
  {
    forall k: nat ensures Answers(e, replies[..n], k) <==> k < n && Answers(e, replies, k) {
      AnswersBefore(e, replies, n, k);
    }
  }

  lemma {:induction false} FirstIs(e: Entry, replies: seq<Reply>)
    requires HasTokens(e)
    ensures FirstAccepted(e, replies).None? <==> Unanswered(e, replies)
    ensures forall k: nat :: FirstAnswer(e, replies, k) ==>
              FirstAccepted(e, replies) == Some(replies[k].value[e.lineIndex])
    decreases |replies|
  {
    if replies != [] {
      var n := |replies| - 1;
      FirstIs(e, replies[..n]);
      FirstBefore(e, replies, n);
      AnswersIs(e, replies, n);
      forall k: nat | FirstAnswer(e, replies, k)
        ensures FirstAccepted(e, replies) == Some(replies[k].value[e.lineIndex])
      { FirstIsOne(e, replies, n, k); }
    }
  }

  lemma {:induction false} FirstIsOne(e: Entry, replies: seq<Reply>, n: nat, k: nat)
    requires HasTokens(e) && n + 1 == |replies| && FirstAnswer(e, replies, k)
    requires FirstAccepted(e, replies[..n]).None? <==> Unanswered(e, replies[..n])
    requires FirstAnswer(e, replies[..n], k) ==>
               FirstAccepted(e, replies[..n]) == Some(replies[..n][k].value[e.lineIndex])
    ensures FirstAccepted(e, replies) == Some(replies[k].value[e.lineIndex])
  {
    FirstBefore(e, replies, n);
    AnswersIs(e, replies, k);
    if k < n { assert replies[..n][k] == replies[k]; }
  }

  /** The first text that will do is stored as accepted, without one the entry's own core. */
  ghost predicate DoneWell(d: Done, e: Entry, replies: seq<Reply>) {
    && d.entry == e
    && (forall k: nat :: FirstAnswer(e, replies, k) ==> d.ok && d.text == replies[k].value[e.lineIndex])
    && (Unanswered(e, replies) ==> !d.ok && d.text == e.core)
  }

  lemma ResolvedWell(group: seq<Entry>, replies: seq<Reply>, k: nat)
    requires k < |group| && forall i :: 0 <= i < |group| ==> HasTokens(group[i])
    ensures DoneWell(Resolve(group, replies)[k], group[k], replies)
  {
    FirstIs(group[k], replies);
  }

  // ---------- The calls of a group ----------

  /** What the call for group `i` may store: the model's answers are whatever they are. */
  ghost predicate MayResolve(groups: seq<seq<Entry>>, replies: seq<seq<Reply>>, i: nat, v: seq<Done>) {
    && i < |groups| && i < |replies| && (forall k :: 0 <= k < |groups[i]| ==> HasTokens(groups[i][k]))
    && v == Resolve(groups[i], replies[i])
  }

  method ResolveGroup(group: seq<Entry>, replies: seq<Reply>, retries: nat) returns (out: seq<Done>)
    requires ItemsGood(group) && |replies| == retries + 1
    ensures out == Resolve(group, replies)
    ensures forall k :: 0 <= k < |group| ==> DoneWell(out[k], group[k], replies)
  {
    var m := RewriteChunk(group, replies, retries);
    out := [];
    var i := 0;
    while i < |group|
      invariant 0 <= i <= |group| && |out| == i
      invariant forall k :: 0 <= k < i ==> out[k] == Resolve(group, replies)[k]
    {
      assert Lookup(m, group[i].lineIndex) == FirstAccepted(group[i], replies);
      var candidate := Lookup(m, group[i].lineIndex);
      out := out + [Done(group[i], if candidate.Some? then candidate.value else group[i].core, candidate.Some?)];
      i := i + 1;
    }
    forall k | 0 <= k < |group| ensures DoneWell(out[k], group[k], replies) { ResolvedWell(group, replies, k); }
  }

  function Rebuilt(d: Done): string {
    d.entry.prefix + d.text + d.entry.suffix
  }

  /** The file after the lines of `ds` have been put back. */
  ghost predicate PutBack(out: seq<string>, lines: seq<string>, ds: seq<Done>) {
    && |out| == |lines|
    && (forall k :: 0 <= k < |ds| ==> ds[k].entry.lineIndex < |lines| && out[ds[k].entry.lineIndex] == Rebuilt(ds[k]))
    && (forall j :: 0 <= j < |lines| && (forall k :: 0 <= k < |ds| ==> ds[k].entry.lineIndex != j) ==> out[j] == lines[j])
  }

  ghost predicate Apart(ds: seq<Done>, n: nat) {
    && (forall k :: 0 <= k < |ds| ==> ds[k].entry.lineIndex < n)
    && (forall i, j :: 0 <= i < j < |ds| ==> ds[i].entry.lineIndex != ds[j].entry.lineIndex)
  }

  lemma PutOneBack(out: seq<string>, lines: seq<string>, ds: seq<Done>, d: Done)
    requires PutBack(out, lines, ds) && Apart(ds + [d], |lines|) && d.entry.lineIndex < |out|
    ensures PutBack(out[d.entry.lineIndex := Rebuilt(d)], lines, ds + [d])
  {
    var more := ds + [d];
    assert more[|ds|] == d;
    forall k | 0 <= k < |ds| ensures ds[k].entry.lineIndex != d.entry.lineIndex {
      assert more[k] == ds[k];
    }
    forall j | 0 <= j < |lines| && (forall k :: 0 <= k < |more| ==> more[k].entry.lineIndex != j)
      ensures out[d.entry.lineIndex := Rebuilt(d)][j] == lines[j]
    {
      assert more[|ds|].entry.lineIndex != j;
      forall k | 0 <= k < |ds| ensures ds[k].entry.lineIndex != j { assert more[k] == ds[k]; }
    }
  }

  function Fallbacks(ds: seq<Done>): nat {
    if ds == [] then 0 else Fallbacks(ds[..|ds| - 1]) + if ds[|ds| - 1].ok then 0 else 1
  }

  method PutGroupBack(lines0: seq<string>, group: seq<Done>, out0: seq<string>, fallback0: nat, ghost before: seq<Done>)
    returns (out: seq<string>, fallback: nat)
    requires PutBack(out0, lines0, before) && Apart(before + group, |lines0|) && fallback0 == Fallbacks(before)
    ensures PutBack(out, lines0, before + group) && fallback == Fallbacks(before + group)
  {
    out, fallback := out0, fallback0;
    var i := 0;
    assert before + group[..0] == before;
    while i < |group|
      invariant 0 <= i <= |group| && PutBack(out, lines0, before + group[..i])
      invariant fallback == Fallbacks(before + group[..i])
    {
      ApartPrefix(before, group, i, |lines0|);
      PutOneBack(out, lines0, before + group[..i], group[i]);
      assert (before + group[..i + 1])[..|before| + i] == before + group[..i];
      assert before + group[..i + 1] == before + group[..i] + [group[i]];
      out := out[group[i].entry.lineIndex := Rebuilt(group[i])];
      if !group[i].ok { fallback := fallback + 1; }
      i := i + 1;
    }
    TakeAll(group, i);
  }

  lemma ApartPrefix(before: seq<Done>, group: seq<Done>, i: nat, n: nat)
    requires i < |group| && Apart(before + group, n)
    ensures Apart(before + group[..i] + [group[i]], n) && group[i].entry.lineIndex < n
  {
    var all := before + group;
    assert before + group[..i] + [group[i]] == all[..|before| + i + 1];
    assert all[|before| + i] == group[i];
  }

  lemma {:induction false} FlattenPrefix<T>(groups: seq<seq<T>>, i: nat) returns (rest: seq<T>)
    requires i <= |groups|
    ensures Flatten(groups) == Flatten(groups[..i]) + rest
    decreases |groups|
  {
    if i == |groups| {
      TakeAll(groups, i);
      rest := [];
    } else {
      var k := |groups| - 1;
      var middle := FlattenPrefix(groups[..k], i);
      assert groups[..k][..i] == groups[..i];
      rest := middle + groups[k];
    }
  }

  method Assemble(lines: seq<string>, resolved: seq<seq<Done>>) returns (out: seq<string>, fallback: nat)
    requires Apart(Flatten(resolved), |lines|)
    ensures PutBack(out, lines, Flatten(resolved)) && fallback == Fallbacks(Flatten(resolved))
  {
    out, fallback := lines, 0;
    var i := 0;
    while i < |resolved|
      invariant 0 <= i <= |resolved|
      invariant PutBack(out, lines, Flatten(resolved[..i])) && fallback == Fallbacks(Flatten(resolved[..i]))
    {
      TakeMore(resolved, i);
      ghost var rest := FlattenPrefix(resolved, i + 1);
      ApartShorter(Flatten(resolved[..i + 1]), rest, |lines|);
      out, fallback := PutGroupBack(lines, resolved[i], out, fallback, Flatten(resolved[..i]));
      i := i + 1;
    }
    TakeAll(resolved, i);
  }

  lemma ApartShorter(ds: seq<Done>, rest: seq<Done>, n: nat)
    requires Apart(ds + rest, n)
    ensures Apart(ds, n)
  {
    var all := ds + rest;
    forall k | 0 <= k < |ds| ensures ds[k] == all[k] { }
  }

  // ---------- Any interleaving, any answers ----------

  function Entries(ds: seq<Done>): seq<Entry> {
    seq(|ds|, i requires 0 <= i < |ds| => ds[i].entry)
  }

  /** Each entry is as it was, or carries a text that keeps its tokens. */
  ghost predicate Harmless(d: Done) {
    && HasTokens(d.entry)
    && (if d.ok then Preserves(d.text, d.entry.tokens) else d.text == d.entry.core)
  }

  lemma ResolvedIsHarmless(groups: seq<seq<Entry>>, replies: seq<seq<Reply>>, i: nat, v: seq<Done>)
    requires MayResolve(groups, replies, i, v)
    ensures Entries(v) == groups[i] && forall k :: 0 <= k < |v| ==> Harmless(v[k])
  {
    forall k | 0 <= k < |v| ensures Harmless(v[k]) {
      if FirstAccepted(groups[i][k], replies[i]).Some? { FirstAcceptedPreserves(groups[i][k], replies[i]); }
    }
  }

  ghost predicate AllResolved(groups: seq<seq<Entry>>, replies: seq<seq<Reply>>, resolved: seq<seq<Done>>) {
    |resolved| == |groups| && forall i :: 0 <= i < |groups| ==> MayResolve(groups, replies, i, resolved[i])
  }

  lemma EntriesCat(a: seq<Done>, b: seq<Done>)
    ensures Entries(a + b) == Entries(a) + Entries(b)
  {
  }

  ghost predicate AllHarmless(ds: seq<Done>) {
    forall k :: 0 <= k < |ds| ==> Harmless(ds[k])
  }

  lemma {:induction false} FlattenResolved(groups: seq<seq<Entry>>, replies: seq<seq<Reply>>, resolved: seq<seq<Done>>,
                                           i: nat)
    requires AllResolved(groups, replies, resolved) && i <= |groups|
    ensures Entries(Flatten(resolved[..i])) == Flatten(groups[..i]) && AllHarmless(Flatten(resolved[..i]))
    decreases i
  {
    if i > 0 {
      FlattenResolved(groups, replies, resolved, i - 1);
      assert resolved[..i][..i - 1] == resolved[..i - 1] && groups[..i][..i - 1] == groups[..i - 1];
      ResolvedIsHarmless(groups, replies, i - 1, resolved[i - 1]);
      EntriesCat(Flatten(resolved[..i - 1]), resolved[i - 1]);
    }
  }

  lemma RisesApart(ds: seq<Done>, lines: seq<string>)
    requires GoodPlan(Entries(ds), lines)
    ensures Apart(ds, |lines|)
  {
    forall k | 0 <= k < |ds| ensures ds[k].entry == Entries(ds)[k] && GoodEntry(ds[k].entry, lines) { }
    forall i, j | 0 <= i < j < |ds| ensures ds[i].entry.lineIndex != ds[j].entry.lineIndex {
      assert Entries(ds)[i].lineIndex < Entries(ds)[j].lineIndex;
    }
  }

  /** A planned line at the end: itself, or its prefix and suffix around a text with its tokens. */
  ghost predicate KeptOrRewritten(e: Entry, was: string, now: string) {
    HasTokens(e) && (now == was || exists text :: Preserves(text, e.tokens) && now == e.prefix + text + e.suffix)
  }

  lemma DoneLine(d: Done, lines: seq<string>)
    requires GoodEntry(d.entry, lines) && Harmless(d)
    ensures KeptOrRewritten(d.entry, lines[d.entry.lineIndex], Rebuilt(d))
  {
    if d.ok { assert Preserves(d.text, d.entry.tokens) && Rebuilt(d) == d.entry.prefix + d.text + d.entry.suffix; }
  }

  function Resolved(pool: Pool<seq<Done>>, n: nat): seq<seq<Done>>
    requires forall i: nat :: i < n ==> i in pool.results
  {
    seq(n, i requires 0 <= i < n => pool.results[i])
  }

  // ---------- Which lines are left alone ----------

  /** The planned entries, by group and place, that no answer would do for. */
  ghost function LeftAlone(groups: seq<seq<Entry>>, replies: seq<seq<Reply>>): set<(nat, nat)>
    requires |replies| == |groups|
  {
    set g: nat, k: nat | g < |groups| && k < |groups[g]| && Unanswered(groups[g][k], replies[g]) :: (g, k)
  }

  ghost function LeftIn(group: seq<Entry>, replies: seq<Reply>): set<nat> {
    set k: nat | k < |group| && Unanswered(group[k], replies)
  }

  lemma {:induction false} FallbacksIn(group: seq<Entry>, replies: seq<Reply>, n: nat)
    requires n <= |group| && forall i :: 0 <= i < |group| ==> HasTokens(group[i])
    ensures Fallbacks(Resolve(group, replies)[..n]) == |LeftIn(group[..n], replies)|
    decreases n
  {
    var ds := Resolve(group, replies);
    if n > 0 {
      FallbacksIn(group, replies, n - 1);
      assert ds[..n][..n - 1] == ds[..n - 1];
      FirstIs(group[n - 1], replies);
      assert LeftIn(group[..n], replies)
        == LeftIn(group[..n - 1], replies) + if ds[n - 1].ok then {} else {n - 1};
    }
  }

  lemma {:induction false} FallbacksCat(a: seq<Done>, b: seq<Done>)
    ensures Fallbacks(a + b) == Fallbacks(a) + Fallbacks(b)
    decreases |b|
  {
    if b == [] {
      assert a + b == a;
    } else {
      var n := |b| - 1;
      FallbacksCat(a, b[..n]);
      assert (a + b)[..|a| + n] == a + b[..n];
    }
  }

  function InGroup(g: nat, ks: set<nat>): set<(nat, nat)> {
    set k | k in ks :: (g, k)
  }

  lemma {:induction false} InGroupSize(g: nat, ks: set<nat>)
    ensures |InGroup(g, ks)| == |ks|
  {
    if ks != {} {
      var k :| k in ks;
      InGroupSize(g, ks - {k});
      assert InGroup(g, ks) == InGroup(g, ks - {k}) + {(g, k)};
    }
  }

  lemma LeftMore(groups: seq<seq<Entry>>, replies: seq<seq<Reply>>, n: nat)
    requires n < |groups| == |replies|
    ensures |LeftAlone(groups[..n + 1], replies[..n + 1])|
         == |LeftAlone(groups[..n], replies[..n])| + |LeftIn(groups[n], replies[n])|
  {
    var before, more := LeftAlone(groups[..n], replies[..n]), InGroup(n, LeftIn(groups[n], replies[n]));
    var all := LeftAlone(groups[..n + 1], replies[..n + 1]);
    InGroupSize(n, LeftIn(groups[n], replies[n]));
    forall x ensures x in all <==> x in before + more { }
    assert all == before + more && before !! more;
  }

  lemma {:induction false} FallbacksAre(groups: seq<seq<Entry>>, replies: seq<seq<Reply>>, resolved: seq<seq<Done>>,
                                        n: nat)
    requires AllResolved(groups, replies, resolved) && |replies| == |groups| && n <= |groups|
    ensures Fallbacks(Flatten(resolved[..n])) == |LeftAlone(groups[..n], replies[..n])|
    decreases n
  {
    if n > 0 {
      FallbacksAre(groups, replies, resolved, n - 1);
      assert MayResolve(groups, replies, n - 1, resolved[n - 1]);
      var group := groups[n - 1];
      FallbacksIn(group, replies[n - 1], |group|);
      TakeAll(group, |group|);
      TakeAll(Resolve(group, replies[n - 1]), |group|);
      assert resolved[..n][..n - 1] == resolved[..n - 1];
      FallbacksCat(Flatten(resolved[..n - 1]), resolved[n - 1]);
      LeftMore(groups, replies, n - 1);
    }
  }

  /** Every planned line of the file, after its group's results have been put back. */
  ghost predicate AllSettled(groups: seq<seq<Entry>>, replies: seq<seq<Reply>>, lines: seq<string>, out: seq<string>)
    requires |replies| == |groups| && |out| == |lines|
  {
    forall g, k :: 0 <= g < |groups| && 0 <= k < |groups[g]| ==>
      groups[g][k].lineIndex < |lines| &&
      Settled(groups[g][k], replies[g], lines[groups[g][k].lineIndex], out[groups[g][k].lineIndex])
  }

  lemma {:induction false} InFlattened<T>(groups: seq<seq<T>>, g: nat, k: nat)
    requires g < |groups| && k < |groups[g]|
    ensures groups[g][k] in Flatten(groups)
    decreases |groups|
  {
    var n := |groups| - 1;
    if g < n {
      InFlattened(groups[..n], g, k);
    } else {
      assert groups[g][k] in groups[n];
    }
  }

  lemma SettledOne(d: Done, replies: seq<Reply>, group: seq<Entry>, k: nat, lines: seq<string>)
    requires k < |group| && (forall i :: 0 <= i < |group| ==> HasTokens(group[i])) && d == Resolve(group, replies)[k]
    requires GoodEntry(d.entry, lines)
    ensures d.entry == group[k] && Settled(group[k], replies, lines[group[k].lineIndex], Rebuilt(d))
  {
    ResolvedWell(group, replies, k);
  }

  lemma {:induction false} LinesSettled(groups: seq<seq<Entry>>, replies: seq<seq<Reply>>, resolved: seq<seq<Done>>,
                                        lines: seq<string>, out: seq<string>)
    requires AllResolved(groups, replies, resolved) && |replies| == |groups|
    requires PutBack(out, lines, Flatten(resolved)) && GoodPlan(Entries(Flatten(resolved)), lines)
    ensures AllSettled(groups, replies, lines, out)
  {
    forall g, k | 0 <= g < |groups| && 0 <= k < |groups[g]|
      ensures groups[g][k].lineIndex < |lines|
      ensures Settled(groups[g][k], replies[g], lines[groups[g][k].lineIndex], out[groups[g][k].lineIndex])
    {
      assert MayResolve(groups, replies, g, resolved[g]);
      var d := resolved[g][k];
      InFlattened(resolved, g, k);
      var i :| 0 <= i < |Flatten(resolved)| && Flatten(resolved)[i] == d;
      assert GoodEntry(Entries(Flatten(resolved))[i], lines);
      SettledOne(d, replies[g], groups[g], k, lines);
    }
  }

  /** Under every interleaving of the workers and whatever the model answers: each group is
      asked for once and in order, and no line outside the plan changes. The first answer that
      keeps a planned line's tokens stands in the line; without one it stays and is counted. */
  method RewriteAll(lines: seq<string>, prose: seq<Entry>, concurrency: int, retries: nat,
                    groups: seq<seq<Entry>>, pool: Pool<seq<Done>>, ghost events: seq<Event<seq<Done>>>,
                    ghost replies: seq<seq<Reply>>)
    returns (out: seq<string>, fallback: nat, ghost resolved: seq<seq<Done>>)
    requires GoodPlan(prose, lines) && Flatten(groups) == prose
    requires |replies| == |groups| && forall g :: 0 <= g < |groups| ==> |replies[g]| == retries + 1
    requires var may := (i, v) => MayResolve(groups, replies, i, v);
             var width := RewriteWidth(concurrency, |groups|);
             Run(events, width, |groups|, may) && pool == After(events, width, |groups|, may)
    requires Over(pool)
    ensures pool.started == seq(|groups|, i => i)
    ensures |out| == |lines| && AllSettled(groups, replies, lines, out)
    ensures fallback == |LeftAlone(groups, replies)|
    ensures AllResolved(groups, replies, resolved) && Entries(Flatten(resolved)) == prose
    ensures PutBack(out, lines, Flatten(resolved))
    ensures forall e <- prose :: KeptOrRewritten(e, lines[e.lineIndex], out[e.lineIndex])
    ensures forall j :: 0 <= j < |lines| && (forall e <- prose :: e.lineIndex != j) ==> out[j] == lines[j]
  {
    PoolComplete(events, RewriteWidth(concurrency, |groups|), |groups|, (i, v) => MayResolve(groups, replies, i, v));
    resolved := Resolved(pool, |groups|);
    AllFlattened(groups, replies, resolved, lines);
    out, fallback := Assemble(lines, Resolved(pool, |groups|));
    LinesSettled(groups, replies, resolved, lines, out);
    PlannedLines(out, lines, Flatten(resolved));
    OtherLines(out, lines, Flatten(resolved));
  }

  lemma {:induction false} AllFlattened(groups: seq<seq<Entry>>, replies: seq<seq<Reply>>, resolved: seq<seq<Done>>,
                                        lines: seq<string>)
    requires AllResolved(groups, replies, resolved) && |replies| == |groups| && GoodPlan(Flatten(groups), lines)
    ensures Entries(Flatten(resolved)) == Flatten(groups) && AllHarmless(Flatten(resolved))
    ensures Apart(Flatten(resolved), |lines|) && Fallbacks(Flatten(resolved)) == |LeftAlone(groups, replies)|
  {
    FlattenResolved(groups, replies, resolved, |groups|);
    FallbacksAre(groups, replies, resolved, |groups|);
    TakeAll(groups, |groups|);
    TakeAll(replies, |groups|);
    TakeAll(resolved, |groups|);
    RisesApart(Flatten(resolved), lines);
  }

  lemma PlannedLines(out: seq<string>, lines: seq<string>, ds: seq<Done>)
    requires PutBack(out, lines, ds) && GoodPlan(Entries(ds), lines) && AllHarmless(ds)
    ensures forall e <- Entries(ds) :: KeptOrRewritten(e, lines[e.lineIndex], out[e.lineIndex])
  {
    forall e <- Entries(ds) ensures e.lineIndex < |lines| && KeptOrRewritten(e, lines[e.lineIndex], out[e.lineIndex]) {
      var k :| 0 <= k < |ds| && Entries(ds)[k] == e;
      assert GoodEntry(ds[k].entry, lines);
      DoneLine(ds[k], lines);
    }
  }

  lemma OtherLines(out: seq<string>, lines: seq<string>, ds: seq<Done>)
    requires PutBack(out, lines, ds)
    ensures forall j :: 0 <= j < |lines| && (forall e <- Entries(ds) :: e.lineIndex != j) ==> out[j] == lines[j]
  {
    forall j | 0 <= j < |lines| && (forall e <- Entries(ds) :: e.lineIndex != j) ensures out[j] == lines[j] {
      forall k | 0 <= k < |ds| ensures ds[k].entry.lineIndex != j { assert Entries(ds)[k] in Entries(ds); }
    }
  }

  // ---------- The number of lines ----------

  lemma RebuiltNewlines(d: Done, lines: seq<string>)
    requires GoodEntry(d.entry, lines) && Newlines(lines[d.entry.lineIndex]) == 0
    ensures Newlines(Rebuilt(d)) == Newlines(d.text)
  {
    NewlinesCat(d.entry.prefix + d.entry.core, d.entry.suffix);
    NewlinesCat(d.entry.prefix, d.entry.core);
    NewlinesCat(d.entry.prefix + d.text, d.entry.suffix);
    NewlinesCat(d.entry.prefix, d.text);
  }

  /** The token check says nothing about newlines: the rewritten file has as many lines as the
      original if and only if no text that was put in holds one. */
  lemma {:induction false} FileKeepsItsLinesIff(content: string, out: seq<string>, ds: seq<Done>)
    requires PutBack(out, SplitLines(content), ds) && GoodPlan(Entries(ds), SplitLines(content))
    ensures |SplitLines(JoinLines(out))| == |SplitLines(content)|
       <==> forall k :: 0 <= k < |ds| ==> Newlines(ds[k].text) == 0
  {
    var lines := SplitLines(content);
    SplitLinesPlain(content);
    LineCountKeptIff(out);
    forall k | 0 <= k < |ds| ensures Newlines(out[ds[k].entry.lineIndex]) == Newlines(ds[k].text) {
      assert GoodEntry(Entries(ds)[k], lines);
      RebuiltNewlines(ds[k], lines);
    }
    if forall k :: 0 <= k < |ds| ==> Newlines(ds[k].text) == 0 {
      forall j | 0 <= j < |out| ensures Newlines(out[j]) == 0 {
        if k :| 0 <= k < |ds| && ds[k].entry.lineIndex == j { }
      }
    }
  }
}

/** What the tables hold after a sync, row by row and in terms of the session file alone
    (scripts/session-stats/sync.py). */
module SessionRows {
  import opened Common
  import opened SessionLog
  import opened SessionSync

  // ---------- Where a file says what ----------

  /** Block `j` of line `i` is the tool call `id`. */
  predicate CallAt(d: seq<Line>, i: nat, j: nat, id: string) {
    i < |d| && d[i].content.Assistant? && j < |d[i].content.blocks| &&
    d[i].content.blocks[j].ToolCall? && d[i].content.blocks[j].callId == id
  }

  predicate EditAt(d: seq<Line>, i: nat, j: nat, id: string) {
    CallAt(d, i, j, id) && d[i].content.blocks[j].tool == "edit"
  }

  /** An edit call whose input has more than `k` sections for the parser. */
  predicate SectionAt(p: Parser, d: seq<Line>, i: nat, j: nat, id: string, k: nat) {
    EditAt(d, i, j, id) && k < |p.sections(d[i].content.blocks[j].input)|
  }

  predicate ResultAt(d: seq<Line>, i: nat, id: string) {
    i < |d| && d[i].content.ToolResult? && d[i].content.callId == id
  }

  predicate EditResultAt(d: seq<Line>, i: nat, id: string) {
    ResultAt(d, i, id) && d[i].content.tool == "edit"
  }

  predicate Said(b: Block) {
    b.Text? && b.t != ""
  }

  predicate Thought(b: Block) {
    b.Thinking? && b.t != ""
  }

  predicate SpeaksAt(d: seq<Line>, i: nat, j: nat) {
    i < |d| && d[i].content.Assistant? && j < |d[i].content.blocks| &&
    (Said(d[i].content.blocks[j]) || Thought(d[i].content.blocks[j]))
  }

  predicate Later(i: nat, j: nat, i2: nat, j2: nat) {
    i < i2 || (i == i2 && j < j2)
  }

  ghost predicate LastCallOf(d: seq<Line>, i: nat, j: nat, id: string) {
    CallAt(d, i, j, id) && forall j2: nat :: CallAt(d, i, j2, id) ==> j2 <= j
  }

  ghost predicate LastEdit(d: seq<Line>, i: nat, j: nat, id: string) {
    EditAt(d, i, j, id) && forall i2: nat, j2: nat :: EditAt(d, i2, j2, id) ==> !Later(i, j, i2, j2)
  }

  ghost predicate LastWithSection(p: Parser, d: seq<Line>, i: nat, j: nat, id: string, k: nat) {
    SectionAt(p, d, i, j, id, k) &&
    forall i2: nat, j2: nat :: SectionAt(p, d, i2, j2, id, k) ==> !Later(i, j, i2, j2)
  }

  ghost predicate LastEditResult(d: seq<Line>, i: nat, id: string) {
    EditResultAt(d, i, id) && forall i2: nat :: EditResultAt(d, i2, id) ==> i2 <= i
  }

  // ---------- What the tables have to hold ----------

  /** The count of a stored text: an empty one has no tokens. */
  predicate Counts(p: Parser, text: string, n: nat) {
    n == if text == "" then 0 else p.tokens(text)
  }

  /** `said` is read off an increasing list of exactly the wanted blocks. */
  ghost predicate ReadOff(blocks: seq<Block>, want: Block -> bool, said: seq<string>) {
    exists at: seq<nat> :: ReadAt(blocks, want, said, at)
  }

  ghost predicate ReadAt(blocks: seq<Block>, want: Block -> bool, said: seq<string>, at: seq<nat>) {
    && |at| == |said|
    && (forall a, b :: 0 <= a < b < |at| ==> at[a] < at[b])
    && (forall j: nat :: j in at <==> j < |blocks| && want(blocks[j]))
    && forall a :: 0 <= a < |at| ==>
         at[a] < |blocks| && (blocks[at[a]].Text? || blocks[at[a]].Thinking?) && said[a] == blocks[at[a]].t
  }

  ghost predicate CallIs(p: Parser, d: seq<Line>, id: string, i: nat, t: map<(string, nat), CallRow>) {
    && ((id, i) in t <==> exists j: nat :: CallAt(d, i, j, id))
    && forall j: nat :: LastCallOf(d, i, j, id) ==>
         (id, i) in t &&
         var row, b := t[(id, i)], d[i].content.blocks[j];
         row.entry == d[i].content.entry && row.tool == b.tool && row.args == b.args && Counts(p, b.args, row.tokens)
  }

  ghost predicate ResultIs(p: Parser, d: seq<Line>, id: string, i: nat, t: map<(string, nat), ResultRow>) {
    && ((id, i) in t <==> ResultAt(d, i, id))
    && (ResultAt(d, i, id) ==>
         (id, i) in t &&
         var row, c := t[(id, i)], d[i].content;
         row.entry == c.entry && row.tool == c.tool && row.text == c.text && row.isError == c.isError &&
         Counts(p, c.text, row.tokens))
  }

  /** Each of the two texts is counted for itself. */
  ghost predicate MessageReadAs(p: Parser, e: Entry, blocks: seq<Block>, row: AssistantRow) {
    && row.entry == e && ReadOff(blocks, Said, row.text) && ReadOff(blocks, Thought, row.thinking)
    && Counts(p, JoinLines(row.text), row.textTokens) && Counts(p, JoinLines(row.thinking), row.thinkingTokens)
  }

  ghost predicate MessageIs(p: Parser, d: seq<Line>, i: nat, t: map<nat, AssistantRow>) {
    && (i in t <==> exists j: nat :: SpeaksAt(d, i, j))
    && (i in t ==>
         i < |d| && d[i].content.Assistant? && MessageReadAs(p, d[i].content.entry, d[i].content.blocks, t[i]))
  }

  ghost predicate UserIs(p: Parser, d: seq<Line>, i: nat, t: map<nat, UserRow>) {
    && (i in t <==> i < |d| && d[i].content.User? && d[i].content.text != "")
    && (i in t ==>
         i < |d| && d[i].content.User? &&
         t[i] == UserRow(d[i].content.entry, d[i].content.text, p.tokens(d[i].content.text)))
  }

  /** An edit's own columns come from its last call, 0 without one. */
  ghost predicate EditCallIs(d: seq<Line>, id: string, row: EditRow) {
    && (forall i: nat, j: nat :: LastEdit(d, i, j, id) ==>
         row.seqNo == i && row.ts == d[i].content.entry.ts && row.inputLen == |d[i].content.blocks[j].input|)
    && ((forall i: nat, j: nat :: !EditAt(d, i, j, id)) ==> row.seqNo == 0 && row.ts == 0 && row.inputLen == 0)
  }

  /** Its verdict comes from its last result, and there is none without one. */
  ghost predicate EditVerdictIs(p: Parser, d: seq<Line>, id: string, row: EditRow) {
    && (forall i: nat :: LastEditResult(d, i, id) ==>
         var text := d[i].content.text;
         row.success == Some(p.successful(text)) &&
         row.warnings == if p.successful(text) then p.warnings(text) else [])
    && ((forall i: nat :: !EditResultAt(d, i, id)) ==> row.success == None && row.warnings == [])
  }

  ghost predicate EditIs(p: Parser, v: nat, d: seq<Line>, id: string, t: map<string, EditRow>) {
    && (id in t <==> (exists i: nat, j: nat :: EditAt(d, i, j, id)) || exists i: nat :: EditResultAt(d, i, id))
    && (id in t ==> t[id].parser == v && EditCallIs(d, id, t[id]) && EditVerdictIs(p, d, id, t[id]))
  }

  ghost predicate SectionIs(p: Parser, v: nat, d: seq<Line>, id: string, k: nat, t: map<(string, nat), SectionRow>) {
    && ((id, k) in t <==> exists i: nat, j: nat :: SectionAt(p, d, i, j, id, k))
    && forall i: nat, j: nat :: LastWithSection(p, d, i, j, id, k) ==>
         (id, k) in t && t[(id, k)] == SectionRow(i, p.sections(d[i].content.blocks[j].input)[k], v)
  }

  ghost predicate MetaIs(d: seq<Line>, m: Meta) {
    m == if d != [] && d[0].content.Header? then d[0].content.meta else Meta(None, None, None, None, None)
  }

  /** The tables hold what the file's lines say, as version `v` reads them, and nothing else. */
  ghost predicate SaysFile(p: Parser, v: nat, d: seq<Line>, t: Tables) {
    && MetaIs(d, t.meta)
    && (forall id: string, i: nat :: CallIs(p, d, id, i, t.calls))
    && (forall id: string, i: nat :: ResultIs(p, d, id, i, t.results))
    && (forall i: nat :: MessageIs(p, d, i, t.assistant))
    && (forall i: nat :: UserIs(p, d, i, t.users))
    && (forall id: string :: EditIs(p, v, d, id, t.edits))
    && (forall id: string, k: nat :: SectionIs(p, v, d, id, k, t.sections))
  }

  // ---------- One more line ----------

  lemma {:induction false} ParseOne(ps: Parsers, v: nat, l: Line, n: nat)
    ensures Parse(ps, v, [l], n) == SessionLog.Ingest(ps, v, l.content, n)
  {
    assert [l][1..] == [];
    CatAssociates(SessionLog.Ingest(ps, v, l.content, n), NO_RECORDS, NO_RECORDS);
  }

  lemma FreshMore(ps: Parsers, v: nat, d: seq<Line>, l: Line)
    ensures Fresh(ps, v, d + [l]) == Apply(Fresh(ps, v, d), SessionLog.Ingest(ps, v, l.content, |d|), v)
  {
    FreshAppend(ps, v, d, [l]);
    ParseOne(ps, v, l, |d|);
  }

  lemma {:induction false} PutNone<K, V>(t: map<K, V>)
    ensures PutAll(t, []) == t
  {
  }

  lemma {:induction false} PutOne<K, V>(t: map<K, V>, k: K, x: V)
    ensures PutAll(t, [(k, x)]) == t[k := x]
  {
    assert [(k, x)][1..] == [];
  }

  lemma Lines(d: seq<Line>, l: Line)
    ensures forall i :: 0 <= i < |d| ==> (d + [l])[i] == d[i]
    ensures (d + [l])[|d|] == l
  {
  }

  // ---------- Results, users ----------

  lemma {:induction false} BlocksPlain(ps: Parsers, v: nat, e: Entry, blocks: seq<Block>, n: nat)
    ensures IngestBlocks(ps, v, e, blocks, n).results == [] && IngestBlocks(ps, v, e, blocks, n).users == []
    ensures IngestBlocks(ps, v, e, blocks, n).assistant == [] && IngestBlocks(ps, v, e, blocks, n).verdicts == []
    decreases blocks
  {
    if blocks != [] { BlocksPlain(ps, v, e, blocks[1..], n); }
  }

  lemma PlainLists(ps: Parsers, v: nat, c: Content, n: nat)
    ensures !c.ToolResult? ==> SessionLog.Ingest(ps, v, c, n).results == []
    ensures !c.User? ==> SessionLog.Ingest(ps, v, c, n).users == []
    ensures !c.Assistant? ==> SessionLog.Ingest(ps, v, c, n).assistant == []
    ensures c.Assistant? ==>
              SessionLog.Ingest(ps, v, c, n).assistant == MessageRow(ps(v), c.entry, c.blocks, n).assistant
  {
    if c.Assistant? { BlocksPlain(ps, v, c.entry, c.blocks, n); }
  }

  lemma {:induction false} ResultRead(ps: Parsers, v: nat, d: seq<Line>, id: string, i: nat)
    ensures ResultIs(ps(v), d, id, i, Fresh(ps, v, d).results)
    decreases |d|
  {
    if d != [] {
      var a, l := d[..|d| - 1], d[|d| - 1];
      InitAndLast(d);
      Lines(a, l);
      ResultRead(ps, v, a, id, i);
      FreshMore(ps, v, a, l);
      PlainLists(ps, v, l.content, |a|);
      ResultStep(ps, v, a, l, id, i, Fresh(ps, v, a).results);
    }
  }

  lemma {:induction false} ResultStep(ps: Parsers, v: nat, a: seq<Line>, l: Line, id: string, i: nat,
                                      t: map<(string, nat), ResultRow>)
    requires ResultIs(ps(v), a, id, i, t)
    ensures ResultIs(ps(v), a + [l], id, i, PutAll(t, SessionLog.Ingest(ps, v, l.content, |a|).results))
  {
    PlainLists(ps, v, l.content, |a|);
    match l.content
    case ToolResult(e, cid, tool, text, isError) =>
      PutOne(t, (cid, |a|), ResultRow(e, tool, text, Tokens(ps(v), text), isError));
    case _ => PutNone(t);
  }

  lemma {:induction false} UserRead(ps: Parsers, v: nat, d: seq<Line>, i: nat)
    ensures UserIs(ps(v), d, i, Fresh(ps, v, d).users)
    decreases |d|
  {
    if d != [] {
      var a, l := d[..|d| - 1], d[|d| - 1];
      InitAndLast(d);
      UserRead(ps, v, a, i);
      FreshMore(ps, v, a, l);
      UserStep(ps, v, a, l, i, Fresh(ps, v, a).users);
    }
  }

  lemma {:induction false} UserStep(ps: Parsers, v: nat, a: seq<Line>, l: Line, i: nat, t: map<nat, UserRow>)
    requires UserIs(ps(v), a, i, t)
    ensures UserIs(ps(v), a + [l], i, PutAll(t, SessionLog.Ingest(ps, v, l.content, |a|).users))
  {
    PlainLists(ps, v, l.content, |a|);
    PutNone(t);
    if l.content.User? && l.content.text != "" {
      PutOne(t, |a|, UserRow(l.content.entry, l.content.text, ps(v).tokens(l.content.text)));
    }
  }

  // ---------- Assistant messages ----------

  function Shifted(at: seq<nat>): seq<nat> {
    seq(|at|, a requires 0 <= a < |at| => at[a] + 1)
  }

  lemma ShiftedHas(at: seq<nat>, j: nat)
    ensures j in Shifted(at) <==> j > 0 && j - 1 in at
  {
    if j > 0 && j - 1 in at {
      var a :| 0 <= a < |at| && at[a] == j - 1;
      assert Shifted(at)[a] == j;
    }
  }

  lemma ReadSkip(b: Block, rest: seq<Block>, want: Block -> bool, said: seq<string>, at: seq<nat>)
    requires ReadAt(rest, want, said, at) && !want(b)
    ensures ReadAt([b] + rest, want, said, Shifted(at))
  {
    var blocks := [b] + rest;
    forall j: nat ensures j in Shifted(at) <==> j < |blocks| && want(blocks[j]) {
      ShiftedHas(at, j);
      if j > 0 { assert j < |blocks| ==> blocks[j] == rest[j - 1]; }
    }
  }

  lemma ReadTake(b: Block, rest: seq<Block>, want: Block -> bool, said: seq<string>, at: seq<nat>)
    requires ReadAt(rest, want, said, at) && want(b) && (b.Text? || b.Thinking?)
    ensures ReadAt([b] + rest, want, [b.t] + said, [0] + Shifted(at))
  {
    var blocks, more := [b] + rest, [0] + Shifted(at);
    forall j: nat ensures j in more <==> j < |blocks| && want(blocks[j]) {
      ShiftedHas(at, j);
      assert j in more <==> j == 0 || j in Shifted(at);
      if j > 0 { assert j < |blocks| ==> blocks[j] == rest[j - 1]; }
    }
  }

  lemma ReadStep(b: Block, rest: seq<Block>, want: Block -> bool, said: seq<string>, more: seq<string>)
    requires ReadOff(rest, want, said)
    requires if want(b) then (b.Text? || b.Thinking?) && more == [b.t] + said else more == said
    ensures ReadOff([b] + rest, want, more)
  {
    var at: seq<nat> :| ReadAt(rest, want, said, at);
    if want(b) {
      ReadTake(b, rest, want, said, at);
    } else {
      ReadSkip(b, rest, want, said, at);
    }
  }

  lemma ReadNone(want: Block -> bool)
    ensures ReadOff([], want, [])
  {
    assert ReadAt([], want, [], []);
  }

  lemma {:induction false} TextsRead(blocks: seq<Block>)
    ensures ReadOff(blocks, Said, Texts(blocks))
    decreases blocks
  {
    if blocks == [] {
      ReadNone(Said);
    } else {
      TextsRead(blocks[1..]);
      HeadAndTail(blocks);
      assert [] + Texts(blocks[1..]) == Texts(blocks[1..]);
      ReadStep(blocks[0], blocks[1..], Said, Texts(blocks[1..]), Texts(blocks));
    }
  }

  lemma {:induction false} ThoughtsRead(blocks: seq<Block>)
    ensures ReadOff(blocks, Thought, Thoughts(blocks))
    decreases blocks
  {
    if blocks == [] {
      ReadNone(Thought);
    } else {
      ThoughtsRead(blocks[1..]);
      HeadAndTail(blocks);
      assert [] + Thoughts(blocks[1..]) == Thoughts(blocks[1..]);
      ReadStep(blocks[0], blocks[1..], Thought, Thoughts(blocks[1..]), Thoughts(blocks));
    }
  }

  lemma NothingRead(blocks: seq<Block>, want: Block -> bool, said: seq<string>)
    requires ReadOff(blocks, want, said)
    ensures said == [] <==> forall j :: 0 <= j < |blocks| ==> !want(blocks[j])
  {
    var at: seq<nat> :| ReadAt(blocks, want, said, at);
    if said != [] { assert at[0] in at; }
    forall j: nat | j < |blocks| && want(blocks[j]) ensures said != [] { assert j in at; }
  }

  lemma SpeaksIff(ps: Parsers, a: seq<Line>, l: Line)
    requires l.content.Assistant?
    ensures Texts(l.content.blocks) == [] && Thoughts(l.content.blocks) == []
       <==> forall j: nat :: !SpeaksAt(a + [l], |a|, j)
  {
    var blocks := l.content.blocks;
    TextsRead(blocks);
    ThoughtsRead(blocks);
    NothingRead(blocks, Said, Texts(blocks));
    NothingRead(blocks, Thought, Thoughts(blocks));
    Lines(a, l);
    if j: nat :| j < |blocks| && (Said(blocks[j]) || Thought(blocks[j])) { assert SpeaksAt(a + [l], |a|, j); }
  }

  lemma SpeaksBefore(a: seq<Line>, l: Line, i: nat)
    ensures i != |a| ==> forall j: nat :: SpeaksAt(a + [l], i, j) <==> SpeaksAt(a, i, j)
    ensures !l.content.Assistant? ==> forall j: nat :: !SpeaksAt(a + [l], |a|, j)
  {
    Lines(a, l);
  }

  lemma {:induction false} MessageMade(ps: Parsers, v: nat, e: Entry, blocks: seq<Block>, n: nat,
                                       t: map<nat, AssistantRow>)
    ensures var u := PutAll(t, MessageRow(ps(v), e, blocks, n).assistant);
            if Texts(blocks) == [] && Thoughts(blocks) == [] then u == t
            else n in u && MessageReadAs(ps(v), e, blocks, u[n])
  {
    TextsRead(blocks);
    ThoughtsRead(blocks);
    PutNone(t);
    var texts, thoughts := Texts(blocks), Thoughts(blocks);
    PutOne(t, n, AssistantRow(e, texts, thoughts, Tokens(ps(v), JoinLines(texts)), Tokens(ps(v), JoinLines(thoughts))));
  }

  lemma {:induction false} MessageNew(ps: Parsers, v: nat, a: seq<Line>, l: Line, t: map<nat, AssistantRow>)
    requires |a| !in t
    ensures MessageIs(ps(v), a + [l], |a|, PutAll(t, SessionLog.Ingest(ps, v, l.content, |a|).assistant))
  {
    PlainLists(ps, v, l.content, |a|);
    Lines(a, l);
    match l.content
    case Assistant(e, blocks) =>
      SpeaksIff(ps, a, l);
      MessageMade(ps, v, e, blocks, |a|, t);
    case _ =>
      PutNone(t);
      SpeaksBefore(a, l, |a|);
  }

  lemma {:induction false} MessageStep(ps: Parsers, v: nat, a: seq<Line>, l: Line, i: nat, t: map<nat, AssistantRow>)
    requires MessageIs(ps(v), a, i, t)
    ensures MessageIs(ps(v), a + [l], i, PutAll(t, SessionLog.Ingest(ps, v, l.content, |a|).assistant))
  {
    if i == |a| {
      assert forall j: nat :: !SpeaksAt(a, i, j);
      MessageNew(ps, v, a, l, t);
    } else {
      PlainLists(ps, v, l.content, |a|);
      SpeaksBefore(a, l, i);
      MessageElsewhere(ps, v, l.content, |a|, t, i);
      Lines(a, l);
    }
  }

  lemma {:induction false} MessageElsewhere(ps: Parsers, v: nat, c: Content, n: nat, t: map<nat, AssistantRow>, i: nat)
    requires i != n
    ensures var u := PutAll(t, SessionLog.Ingest(ps, v, c, n).assistant);
            (i in u <==> i in t) && (i in t ==> u[i] == t[i])
  {
    PlainLists(ps, v, c, n);
    PutNone(t);
    if c.Assistant? && MessageRow(ps(v), c.entry, c.blocks, n).assistant != [] {
      PutOne(t, n, MessageRow(ps(v), c.entry, c.blocks, n).assistant[0].1);
    }
  }

  lemma {:induction false} MessageRead(ps: Parsers, v: nat, d: seq<Line>, i: nat)
    ensures MessageIs(ps(v), d, i, Fresh(ps, v, d).assistant)
    decreases |d|
  {
    if d != [] {
      var a, l := d[..|d| - 1], d[|d| - 1];
      InitAndLast(d);
      MessageRead(ps, v, a, i);
      FreshMore(ps, v, a, l);
      MessageStep(ps, v, a, l, i, Fresh(ps, v, a).assistant);
    }
  }

  // ---------- Tool calls ----------

  function Message(bytes: nat, e: Entry, blocks: seq<Block>): Line {
    Line(bytes, Assistant(e, blocks))
  }

  lemma {:induction false} BlocksAppend(ps: Parsers, v: nat, e: Entry, a: seq<Block>, b: seq<Block>, n: nat)
    ensures IngestBlocks(ps, v, e, a + b, n) == Cat(IngestBlocks(ps, v, e, a, n), IngestBlocks(ps, v, e, b, n))
    decreases a
  {
    var rb := IngestBlocks(ps, v, e, b, n);
    if a == [] {
      assert a + b == b;
      CatAssociates(rb, NO_RECORDS, NO_RECORDS);
    } else {
      CatTail(a, b);
      BlocksAppend(ps, v, e, a[1..], b, n);
      match a[0]
      case ToolCall(id, tool, args, input) =>
        CatAssociates(IngestCall(ps, v, e, id, tool, args, input, n), IngestBlocks(ps, v, e, a[1..], n), rb);
      case _ =>
    }
  }

  lemma {:induction false} OneBlockIs(ps: Parsers, v: nat, e: Entry, b: Block, n: nat)
    ensures IngestBlocks(ps, v, e, [b], n) == BlockRows(ps, v, e, b, n)
  {
    assert [b][1..] == [];
    CatAssociates(BlockRows(ps, v, e, b, n), NO_RECORDS, NO_RECORDS);
  }

  /** The tables that tool calls write, after one block more of the last line. */
  lemma {:induction false} BlockMore(ps: Parsers, v: nat, a: seq<Line>, n: nat, e: Entry, blocks: seq<Block>, b: Block)
    ensures var t, u := Fresh(ps, v, a + [Message(n, e, blocks)]), Fresh(ps, v, a + [Message(n, e, blocks + [b])]);
            var r := BlockRows(ps, v, e, b, |a|);
            && u.calls == PutAll(t.calls, r.calls) && u.sections == PutAll(t.sections, r.sections)
            && u.edits == PutStubs(t.edits, r.stubs, v)
  {
    var f := Fresh(ps, v, a);
    var old1 := IngestBlocks(ps, v, e, blocks, |a|);
    var r := BlockRows(ps, v, e, b, |a|);
    FreshMore(ps, v, a, Message(n, e, blocks));
    FreshMore(ps, v, a, Message(n, e, blocks + [b]));
    BlocksAppend(ps, v, e, blocks, [b], |a|);
    OneBlockIs(ps, v, e, b, |a|);
    BlocksPlain(ps, v, e, blocks, |a|);
    BlocksPlain(ps, v, e, blocks + [b], |a|);
    IngestCalls(ps, v, e, blocks, |a|);
    IngestCalls(ps, v, e, blocks + [b], |a|);
    PutAllAppend(f.calls, old1.calls, r.calls);
    PutAllAppend(f.sections, old1.sections, r.sections);
    PutStubsAppend(f.edits, old1.stubs, r.stubs, v);
  }

  /** A message's own row leaves the tables of tool calls alone. */
  lemma {:induction false} IngestCalls(ps: Parsers, v: nat, e: Entry, blocks: seq<Block>, n: nat)
    ensures var r, b := SessionLog.Ingest(ps, v, Assistant(e, blocks), n), IngestBlocks(ps, v, e, blocks, n);
            r.calls == b.calls && r.stubs == b.stubs && r.sections == b.sections && r.verdicts == b.verdicts
  {
  }

  // ---------- One more block ----------

  lemma CallsOneMore(a: seq<Line>, n: nat, e: Entry, blocks: seq<Block>, b: Block, i: nat, j: nat, id: string)
    ensures CallAt(a + [Message(n, e, blocks + [b])], i, j, id)
       <==> CallAt(a + [Message(n, e, blocks)], i, j, id)
            || (i == |a| && j == |blocks| && b.ToolCall? && b.callId == id)
    ensures CallAt(a + [Message(n, e, blocks)], i, j, id) ==>
              i <= |a| && (i == |a| ==> j < |blocks|)
              && (a + [Message(n, e, blocks)])[i].content.entry == (a + [Message(n, e, blocks + [b])])[i].content.entry
              && (a + [Message(n, e, blocks)])[i].content.blocks[j]
                 == (a + [Message(n, e, blocks + [b])])[i].content.blocks[j]
  {
    Lines(a, Message(n, e, blocks));
    Lines(a, Message(n, e, blocks + [b]));
  }

  lemma {:induction false} CallStep(p: Parser, a: seq<Line>, n: nat, e: Entry, blocks: seq<Block>, b: Block,
                                    id: string, i: nat, t: map<(string, nat), CallRow>, ps: Parsers, v: nat)
    requires p == ps(v) && CallIs(p, a + [Message(n, e, blocks)], id, i, t)
    ensures CallIs(p, a + [Message(n, e, blocks + [b])], id, i, PutAll(t, BlockRows(ps, v, e, b, |a|).calls))
  {
    var d, d' := a + [Message(n, e, blocks)], a + [Message(n, e, blocks + [b])];
    forall j: nat { CallsOneMore(a, n, e, blocks, b, i, j, id); }
    Lines(a, Message(n, e, blocks + [b]));
    PutNone(t);
    var t' := PutAll(t, BlockRows(ps, v, e, b, |a|).calls);
    if b.ToolCall? {
      PutOne(t, (b.callId, |a|), CallRow(e, b.tool, b.args, Tokens(p, b.args)));
    }
    if i == |a| && b.ToolCall? && b.callId == id {
      assert CallAt(d', i, |blocks|, id);
    } else {
      forall j: nat | LastCallOf(d', i, j, id) ensures LastCallOf(d, i, j, id) {
      }
      assert (id, i) in t' <==> (id, i) in t;
      assert (id, i) in t ==> t'[(id, i)] == t[(id, i)];
    }
  }

  lemma EditsOneMore(a: seq<Line>, n: nat, e: Entry, blocks: seq<Block>, b: Block, i: nat, j: nat, id: string)
    ensures EditAt(a + [Message(n, e, blocks + [b])], i, j, id)
       <==> EditAt(a + [Message(n, e, blocks)], i, j, id)
            || (i == |a| && j == |blocks| && b.ToolCall? && b.callId == id && b.tool == "edit")
  {
    CallsOneMore(a, n, e, blocks, b, i, j, id);
    Lines(a, Message(n, e, blocks + [b]));
  }

  lemma ResultsOneMore(a: seq<Line>, n: nat, e: Entry, blocks: seq<Block>, b: Block, i: nat, id: string)
    ensures EditResultAt(a + [Message(n, e, blocks + [b])], i, id) <==> EditResultAt(a + [Message(n, e, blocks)], i, id)
    ensures EditResultAt(a + [Message(n, e, blocks)], i, id) ==>
              (a + [Message(n, e, blocks)])[i] == (a + [Message(n, e, blocks + [b])])[i]
  {
    Lines(a, Message(n, e, blocks));
    Lines(a, Message(n, e, blocks + [b]));
  }

  lemma {:induction false} PutOneStub(t: map<string, EditRow>, s: EditStub, v: nat)
    ensures PutStubs(t, [s], v) == PutStub(t, s, v) && PutStubs(t, [], v) == t
  {
    assert [s][1..] == [];
  }

  lemma {:induction false} PutOneVerdict(t: map<string, EditRow>, r: EditVerdict, v: nat)
    ensures PutVerdicts(t, [r], v) == PutVerdict(t, r, v) && PutVerdicts(t, [], v) == t
  {
    assert [r][1..] == [];
  }

  /** Both lines lists say the same of the edit `id`. */
  ghost predicate SameEdits(d: seq<Line>, d': seq<Line>, id: string) {
    && (forall i: nat, j: nat :: EditAt(d', i, j, id) <==> EditAt(d, i, j, id))
    && (forall i: nat, j: nat :: EditAt(d, i, j, id) ==>
         d'[i].content.entry == d[i].content.entry && d'[i].content.blocks[j] == d[i].content.blocks[j])
  }

  ghost predicate SameResults(d: seq<Line>, d': seq<Line>, id: string) {
    && (forall i: nat :: EditResultAt(d', i, id) <==> EditResultAt(d, i, id))
    && (forall i: nat :: EditResultAt(d, i, id) ==> d'[i] == d[i])
  }

  lemma SameEditCall(d: seq<Line>, d': seq<Line>, id: string, row: EditRow)
    requires SameEdits(d, d', id) && EditCallIs(d, id, row)
    ensures EditCallIs(d', id, row)
  {
    forall i: nat, j: nat | LastEdit(d', i, j, id) ensures LastEdit(d, i, j, id) {
    }
  }

  lemma SameEditVerdict(p: Parser, d: seq<Line>, d': seq<Line>, id: string, row: EditRow)
    requires SameResults(d, d', id) && EditVerdictIs(p, d, id, row)
    ensures EditVerdictIs(p, d', id, row)
  {
    forall i: nat | LastEditResult(d', i, id) ensures LastEditResult(d, i, id) {
    }
  }

  lemma SameEdit(p: Parser, v: nat, d: seq<Line>, d': seq<Line>, id: string, t: map<string, EditRow>,
                 t': map<string, EditRow>)
    requires SameEdits(d, d', id) && SameResults(d, d', id) && EditIs(p, v, d, id, t)
    requires (id in t' <==> id in t) && (id in t ==> t'[id] == t[id])
    ensures EditIs(p, v, d', id, t')
  {
    if id in t {
      SameEditCall(d, d', id, t[id]);
      SameEditVerdict(p, d, d', id, t[id]);
    }
  }

  /** Block `j` of line `i` is the last call of the edit in `d'`, and gives its row. */
  lemma NewEditCall(d': seq<Line>, id: string, i: nat, j: nat, row: EditRow)
    requires LastEdit(d', i, j, id)
    requires row.seqNo == i && row.ts == d'[i].content.entry.ts && row.inputLen == |d'[i].content.blocks[j].input|
    ensures EditCallIs(d', id, row)
  {
    forall i2: nat, j2: nat | LastEdit(d', i2, j2, id) ensures i2 == i && j2 == j {
      assert !Later(i, j, i2, j2) && !Later(i2, j2, i, j);
    }
  }

  lemma NewEditVerdict(p: Parser, d': seq<Line>, id: string, i: nat, row: EditRow)
    requires LastEditResult(d', i, id)
    requires row.success == Some(p.successful(d'[i].content.text))
    requires row.warnings == if p.successful(d'[i].content.text) then p.warnings(d'[i].content.text) else []
    ensures EditVerdictIs(p, d', id, row)
  {
    forall i2: nat | LastEditResult(d', i2, id) ensures i2 == i {
    }
  }

  lemma NoVerdictYet(p: Parser, d: seq<Line>, id: string, s: EditStub, v: nat)
    requires forall i: nat :: !EditResultAt(d, i, id)
    ensures EditVerdictIs(p, d, id, EditRow(s.seqNo, s.ts, s.inputLen, None, [], v))
  {
  }

  lemma NoCallYet(d: seq<Line>, id: string, r: EditVerdict, v: nat)
    requires forall i: nat, j: nat :: !EditAt(d, i, j, id)
    ensures EditCallIs(d, id, EditRow(0, 0, 0, Some(r.success), r.warnings, v))
  {
  }

  /** The edit calls are those before the block and, if it is one, the block. */
  lemma EditsGrow(a: seq<Line>, n: nat, e: Entry, blocks: seq<Block>, b: Block, id: string)
    ensures var d, d' := a + [Message(n, e, blocks)], a + [Message(n, e, blocks + [b])];
            && (forall i: nat, j: nat :: EditAt(d', i, j, id)
                 <==> EditAt(d, i, j, id)
                      || (i == |a| && j == |blocks| && b.ToolCall? && b.callId == id && b.tool == "edit"))
            && (forall i: nat, j: nat :: EditAt(d, i, j, id) ==>
                 (i < |a| || (i == |a| && j < |blocks|)) &&
                 d'[i].content.entry == d[i].content.entry && d'[i].content.blocks[j] == d[i].content.blocks[j])
  {
    var d, d' := a + [Message(n, e, blocks)], a + [Message(n, e, blocks + [b])];
    forall i: nat, j: nat
      ensures EditAt(d', i, j, id)
         <==> EditAt(d, i, j, id)
              || (i == |a| && j == |blocks| && b.ToolCall? && b.callId == id && b.tool == "edit")
    { EditsOneMore(a, n, e, blocks, b, i, j, id); }
    forall i: nat, j: nat | EditAt(d, i, j, id)
      ensures (i < |a| || (i == |a| && j < |blocks|)) && d'[i].content.entry == d[i].content.entry
      ensures d'[i].content.blocks[j] == d[i].content.blocks[j]
    { CallsOneMore(a, n, e, blocks, b, i, j, id); }
  }

  lemma {:induction false} EditStep(p: Parser, v: nat, a: seq<Line>, n: nat, e: Entry, blocks: seq<Block>, b: Block,
                                    id: string, t: map<string, EditRow>, ps: Parsers)
    requires EditIs(p, v, a + [Message(n, e, blocks)], id, t)
    ensures EditIs(p, v, a + [Message(n, e, blocks + [b])], id, PutStubs(t, BlockRows(ps, v, e, b, |a|).stubs, v))
  {
    var d, d' := a + [Message(n, e, blocks)], a + [Message(n, e, blocks + [b])];
    forall i: nat { ResultsOneMore(a, n, e, blocks, b, i, id); }
    assert SameResults(d, d', id);
    EditsGrow(a, n, e, blocks, b, id);
    if b.ToolCall? && b.callId == id && b.tool == "edit" {
      Lines(a, Message(n, e, blocks + [b]));
      NewEdit(p, v, d, d', id, |a|, |blocks|, t);
      PutOneStub(t, EditStub(id, |a|, e.ts, |b.input|), v);
    } else {
      if b.ToolCall? && b.tool == "edit" { PutOneStub(t, EditStub(b.callId, |a|, e.ts, |b.input|), v); }
      SameEdit(p, v, d, d', id, t, PutStubs(t, BlockRows(ps, v, e, b, |a|).stubs, v));
    }
  }

  lemma NewEdit(p: Parser, v: nat, d: seq<Line>, d': seq<Line>, id: string, i: nat, j: nat, t: map<string, EditRow>)
    requires EditIs(p, v, d, id, t) && SameResults(d, d', id) && LastEdit(d', i, j, id)
    ensures EditIs(p, v, d', id,
                   PutStub(t, EditStub(id, i, d'[i].content.entry.ts, |d'[i].content.blocks[j].input|), v))
  {
    var s := EditStub(id, i, d'[i].content.entry.ts, |d'[i].content.blocks[j].input|);
    var row := PutStub(t, s, v)[id];
    NewEditCall(d', id, i, j, row);
    if id in t {
      SameEditVerdict(p, d, d', id, t[id]);
      assert EditVerdictIs(p, d', id, row);
    } else {
      NoVerdictYet(p, d', id, s, v);
    }
  }

  // ---------- Sections ----------

  lemma {:induction false} SectionRowsHave(t: map<(string, nat), SectionRow>, sections: seq<string>, cid: string,
                                           n: nat, v: nat, id: string, k: nat)
    ensures var u := PutAll(t, SectionRows(sections, cid, n, v));
            if cid == id && k < |sections| then (id, k) in u && u[(id, k)] == SectionRow(n, sections[k], v)
            else ((id, k) in u <==> (id, k) in t) && ((id, k) in t ==> u[(id, k)] == t[(id, k)])
    decreases |sections|
  {
    if sections == [] {
      PutNone(t);
    } else {
      var m: nat := |sections| - 1;
      SectionRowsHave(t, sections[..m], cid, n, v, id, k);
      SectionRowsMore(t, sections, cid, n, v);
      assert k < m ==> sections[..m][k] == sections[k];
    }
  }

  lemma {:induction false} SectionRowsMore(t: map<(string, nat), SectionRow>, sections: seq<string>, cid: string,
                                           n: nat, v: nat)
    requires sections != []
    ensures var m: nat := |sections| - 1;
            var key: (string, nat) := (cid, m);
            PutAll(t, SectionRows(sections, cid, n, v))
            == PutAll(t, SectionRows(sections[..m], cid, n, v))[key := SectionRow(n, sections[m], v)]
  {
    var m: nat := |sections| - 1;
    var key: (string, nat) := (cid, m);
    var less, row := SectionRows(sections[..m], cid, n, v), SectionRow(n, sections[m], v);
    var one: seq<((string, nat), SectionRow)> := [(key, row)];
    assert SectionRows(sections, cid, n, v) == less + one;
    PutAllAppend(t, less, one);
    PutOne(PutAll(t, less), key, row);
  }

  lemma SectionsOneMore(p: Parser, a: seq<Line>, n: nat, e: Entry, blocks: seq<Block>, b: Block, i: nat, j: nat,
                        id: string, k: nat)
    ensures SectionAt(p, a + [Message(n, e, blocks + [b])], i, j, id, k)
       <==> SectionAt(p, a + [Message(n, e, blocks)], i, j, id, k)
            || (i == |a| && j == |blocks| && b.ToolCall? && b.callId == id && b.tool == "edit"
                && k < |p.sections(b.input)|)
  {
    EditsOneMore(a, n, e, blocks, b, i, j, id);
    CallsOneMore(a, n, e, blocks, b, i, j, id);
    Lines(a, Message(n, e, blocks + [b]));
  }

  lemma SectionsGrow(p: Parser, a: seq<Line>, n: nat, e: Entry, blocks: seq<Block>, b: Block, id: string, k: nat)
    ensures var d, d' := a + [Message(n, e, blocks)], a + [Message(n, e, blocks + [b])];
            && (forall i: nat, j: nat :: SectionAt(p, d', i, j, id, k)
                 <==> SectionAt(p, d, i, j, id, k)
                      || (i == |a| && j == |blocks| && b.ToolCall? && b.callId == id && b.tool == "edit"
                          && k < |p.sections(b.input)|))
            && (forall i: nat, j: nat :: SectionAt(p, d, i, j, id, k) ==>
                 (i < |a| || (i == |a| && j < |blocks|)) && d'[i].content.blocks[j] == d[i].content.blocks[j])
  {
    var d, d' := a + [Message(n, e, blocks)], a + [Message(n, e, blocks + [b])];
    EditsGrow(a, n, e, blocks, b, id);
    forall i: nat, j: nat
      ensures SectionAt(p, d', i, j, id, k)
         <==> SectionAt(p, d, i, j, id, k)
              || (i == |a| && j == |blocks| && b.ToolCall? && b.callId == id && b.tool == "edit"
                  && k < |p.sections(b.input)|)
    { SectionsOneMore(p, a, n, e, blocks, b, i, j, id, k); }
  }

  lemma {:induction false} SectionStep(p: Parser, v: nat, a: seq<Line>, n: nat, e: Entry, blocks: seq<Block>,
                                       b: Block, id: string, k: nat, t: map<(string, nat), SectionRow>, ps: Parsers)
    requires p == ps(v) && SectionIs(p, v, a + [Message(n, e, blocks)], id, k, t)
    ensures SectionIs(p, v, a + [Message(n, e, blocks + [b])], id, k,
                      PutAll(t, BlockRows(ps, v, e, b, |a|).sections))
  {
    var d, d' := a + [Message(n, e, blocks)], a + [Message(n, e, blocks + [b])];
    SectionsGrow(p, a, n, e, blocks, b, id, k);
    Lines(a, Message(n, e, blocks + [b]));
    var t' := PutAll(t, BlockRows(ps, v, e, b, |a|).sections);
    if b.ToolCall? && b.tool == "edit" {
      SectionRowsHave(t, p.sections(b.input), b.callId, |a|, v, id, k);
    } else {
      PutNone(t);
    }
    if SectionAt(p, d', |a|, |blocks|, id, k) {
      forall i: nat, j: nat | LastWithSection(p, d', i, j, id, k) ensures i == |a| && j == |blocks| {
        assert !Later(i, j, |a|, |blocks|);
      }
    } else {
      forall i: nat, j: nat | LastWithSection(p, d', i, j, id, k) ensures LastWithSection(p, d, i, j, id, k) {
      }
    }
  }

  // ---------- One more line without a block ----------

  predicate NoBlocks(l: Line) {
    l.content.Assistant? ==> l.content.blocks == []
  }

  lemma LineMore(a: seq<Line>, l: Line, i: nat, j: nat, id: string)
    requires NoBlocks(l)
    ensures CallAt(a + [l], i, j, id) <==> CallAt(a, i, j, id)
    ensures EditAt(a + [l], i, j, id) <==> EditAt(a, i, j, id)
    ensures CallAt(a, i, j, id) ==> (a + [l])[i] == a[i]
  {
    Lines(a, l);
  }

  lemma NoBlocksLists(ps: Parsers, v: nat, l: Line, n: nat)
    requires NoBlocks(l)
    ensures var r := SessionLog.Ingest(ps, v, l.content, n);
            && r.calls == [] && r.stubs == [] && r.sections == []
            && (l.content.Assistant? ==> r.verdicts == [])
  {
    if l.content.Assistant? {
      IngestCalls(ps, v, l.content.entry, l.content.blocks, n);
    }
  }

  lemma CallLine(p: Parser, a: seq<Line>, l: Line, id: string, i: nat, t: map<(string, nat), CallRow>)
    requires NoBlocks(l) && CallIs(p, a, id, i, t)
    ensures CallIs(p, a + [l], id, i, t)
  {
    var d := a + [l];
    forall j: nat ensures CallAt(d, i, j, id) <==> CallAt(a, i, j, id) { LineMore(a, l, i, j, id); }
    forall j: nat | LastCallOf(d, i, j, id) ensures LastCallOf(a, i, j, id) && d[i] == a[i] {
      LineMore(a, l, i, j, id);
    }
  }

  lemma SectionLine(p: Parser, v: nat, a: seq<Line>, l: Line, id: string, k: nat, t: map<(string, nat), SectionRow>)
    requires NoBlocks(l) && SectionIs(p, v, a, id, k, t)
    ensures SectionIs(p, v, a + [l], id, k, t)
  {
    var d := a + [l];
    forall i: nat, j: nat ensures SectionAt(p, d, i, j, id, k) <==> SectionAt(p, a, i, j, id, k) {
      LineMore(a, l, i, j, id);
    }
    forall i: nat, j: nat | LastWithSection(p, d, i, j, id, k)
      ensures LastWithSection(p, a, i, j, id, k) && d[i] == a[i]
    { LineMore(a, l, i, j, id); }
  }

  lemma {:induction false} EditLine(p: Parser, v: nat, a: seq<Line>, l: Line, id: string, t: map<string, EditRow>,
                                    ps: Parsers)
    requires NoBlocks(l) && p == ps(v) && EditIs(p, v, a, id, t)
    ensures EditIs(p, v, a + [l], id, PutVerdicts(t, SessionLog.Ingest(ps, v, l.content, |a|).verdicts, v))
  {
    var d, verdicts := a + [l], SessionLog.Ingest(ps, v, l.content, |a|).verdicts;
    Lines(a, l);
    NoBlocksLists(ps, v, l, |a|);
    forall i: nat, j: nat ensures EditAt(d, i, j, id) <==> EditAt(a, i, j, id) { LineMore(a, l, i, j, id); }
    assert SameEdits(a, d, id);
    if l.content.ToolResult? && l.content.tool == "edit" {
      var text := l.content.text;
      var r := EditVerdict(l.content.callId, p.successful(text), if p.successful(text) then p.warnings(text) else []);
      PutOneVerdict(t, r, v);
      if l.content.callId == id {
        EditResult(p, v, a, l, id, t, r);
      } else {
        SameEdit(p, v, a, d, id, t, PutVerdict(t, r, v));
      }
    } else {
      assert verdicts == [];
      assert SameResults(a, d, id);
      SameEdit(p, v, a, d, id, t, t);
    }
  }

  lemma EditResult(p: Parser, v: nat, a: seq<Line>, l: Line, id: string, t: map<string, EditRow>, r: EditVerdict)
    requires EditIs(p, v, a, id, t) && SameEdits(a, a + [l], id) && EditResultAt(a + [l], |a|, id)
    requires r == EditVerdict(id, p.successful(l.content.text),
                              if p.successful(l.content.text) then p.warnings(l.content.text) else [])
    ensures EditIs(p, v, a + [l], id, PutVerdict(t, r, v))
  {
    var d, row := a + [l], PutVerdict(t, r, v)[id];
    Lines(a, l);
    NewEditVerdict(p, d, id, |a|, row);
    if id in t {
      SameEditCall(a, d, id, t[id]);
      assert EditCallIs(d, id, row);
    } else {
      NoCallYet(d, id, r, v);
    }
  }

  // ---------- All of it ----------

  /** What tool calls write, for one call id. */
  ghost predicate CallsSay(p: Parser, v: nat, d: seq<Line>, id: string, k: nat, t: Tables) {
    CallIs(p, d, id, k, t.calls) && SectionIs(p, v, d, id, k, t.sections) && EditIs(p, v, d, id, t.edits)
  }

  lemma CallsBlockMore(ps: Parsers, v: nat, a: seq<Line>, n: nat, e: Entry, blocks: seq<Block>, b: Block, id: string,
                       k: nat)
    requires CallsSay(ps(v), v, a + [Message(n, e, blocks)], id, k, Fresh(ps, v, a + [Message(n, e, blocks)]))
    ensures CallsSay(ps(v), v, a + [Message(n, e, blocks + [b])], id, k,
                     Fresh(ps, v, a + [Message(n, e, blocks + [b])]))
  {
    var t := Fresh(ps, v, a + [Message(n, e, blocks)]);
    BlockMore(ps, v, a, n, e, blocks, b);
    CallStep(ps(v), a, n, e, blocks, b, id, k, t.calls, ps, v);
    SectionStep(ps(v), v, a, n, e, blocks, b, id, k, t.sections, ps);
    EditStep(ps(v), v, a, n, e, blocks, b, id, t.edits, ps);
  }

  lemma CallsLineMore(ps: Parsers, v: nat, a: seq<Line>, l: Line, id: string, k: nat)
    requires NoBlocks(l) && CallsSay(ps(v), v, a, id, k, Fresh(ps, v, a))
    ensures CallsSay(ps(v), v, a + [l], id, k, Fresh(ps, v, a + [l]))
  {
    var t := Fresh(ps, v, a);
    FreshMore(ps, v, a, l);
    NoBlocksLists(ps, v, l, |a|);
    PutNone(t.calls);
    PutNone(t.sections);
    CallLine(ps(v), a, l, id, k, t.calls);
    SectionLine(ps(v), v, a, l, id, k, t.sections);
    EditLine(ps(v), v, a, l, id, t.edits, ps);
  }

  lemma {:induction false} CallsRead(ps: Parsers, v: nat, d: seq<Line>, id: string, k: nat)
    ensures CallsSay(ps(v), v, d, id, k, Fresh(ps, v, d))
    decreases |d|, if d != [] && d[|d| - 1].content.Assistant? then |d[|d| - 1].content.blocks| else 0
  {
    if d != [] {
      var a, l := d[..|d| - 1], d[|d| - 1];
      InitAndLast(d);
      if NoBlocks(l) {
        CallsRead(ps, v, a, id, k);
        CallsLineMore(ps, v, a, l, id, k);
      } else {
        var e, blocks := l.content.entry, l.content.blocks;
        var less, b := blocks[..|blocks| - 1], blocks[|blocks| - 1];
        InitAndLast(blocks);
        assert l == Message(l.bytes, e, less + [b]);
        Lines(a, Message(l.bytes, e, less));
        CallsRead(ps, v, a + [Message(l.bytes, e, less)], id, k);
        CallsBlockMore(ps, v, a, l.bytes, e, less, b, id, k);
      }
    }
  }

  /** A rebuild of a file's tables puts down what its lines say, row by row. */
  lemma {:induction false} FreshSaysFile(ps: Parsers, v: nat, d: seq<Line>)
    ensures SaysFile(ps(v), v, d, Fresh(ps, v, d))
  {
    var t := Fresh(ps, v, d);
    ParseMeta(ps, v, d, 0);
    forall id: string, i: nat ensures CallIs(ps(v), d, id, i, t.calls) { CallsRead(ps, v, d, id, i); }
    forall id: string, k: nat ensures SectionIs(ps(v), v, d, id, k, t.sections) { CallsRead(ps, v, d, id, k); }
    forall id: string ensures EditIs(ps(v), v, d, id, t.edits) { CallsRead(ps, v, d, id, 0); }
    forall id: string, i: nat ensures ResultIs(ps(v), d, id, i, t.results) { ResultRead(ps, v, d, id, i); }
    forall i: nat ensures MessageIs(ps(v), d, i, t.assistant) { MessageRead(ps, v, d, i); }
    forall i: nat ensures UserIs(ps(v), d, i, t.users) { UserRead(ps, v, d, i); }
  }

  // ---------- Nothing is left open ----------

  lemma {:induction false} SomeLastCall(d: seq<Line>, i: nat, j: nat, id: string) returns (k: nat)
    requires CallAt(d, i, j, id)
    ensures LastCallOf(d, i, k, id)
    decreases |d[i].content.blocks| - j
  {
    if m: nat :| CallAt(d, i, m, id) && m > j { k := SomeLastCall(d, i, m, id); } else { k := j; }
  }

  lemma {:induction false} SomeLastResult(d: seq<Line>, i: nat, id: string) returns (k: nat)
    requires EditResultAt(d, i, id)
    ensures LastEditResult(d, k, id)
    decreases |d| - i
  {
    if m: nat :| EditResultAt(d, m, id) && m > i { k := SomeLastResult(d, m, id); } else { k := i; }
  }

  lemma {:induction false} SomeLastEdit(d: seq<Line>, i: nat, j: nat, id: string) returns (k: nat, l: nat)
    requires EditAt(d, i, j, id)
    ensures LastEdit(d, k, l, id)
    decreases |d| - i, |d[i].content.blocks| - j
  {
    if m: nat, n: nat :| EditAt(d, m, n, id) && Later(i, j, m, n) {
      k, l := SomeLastEdit(d, m, n, id);
    } else {
      k, l := i, j;
    }
  }

  lemma {:induction false} SomeLastSection(p: Parser, d: seq<Line>, i: nat, j: nat, id: string, s: nat)
    returns (k: nat, l: nat)
    requires SectionAt(p, d, i, j, id, s)
    ensures LastWithSection(p, d, k, l, id, s)
    decreases |d| - i, |d[i].content.blocks| - j
  {
    if m: nat, n: nat :| SectionAt(p, d, m, n, id, s) && Later(i, j, m, n) {
      k, l := SomeLastSection(p, d, m, n, id, s);
    } else {
      k, l := i, j;
    }
  }

  lemma HasFirst(s: seq<nat>)
    ensures s == [] || (|s| > 0 && s[0] in s)
  {
  }

  lemma {:induction false} RisingSame(a: seq<nat>, b: seq<nat>)
    requires forall i, j :: 0 <= i < j < |a| ==> a[i] < a[j]
    requires forall i, j :: 0 <= i < j < |b| ==> b[i] < b[j]
    requires forall x: nat :: x in a <==> x in b
    ensures a == b
    decreases a
  {
    HasFirst(a);
    HasFirst(b);
    if a != [] && b != [] {
      var m, n := |a| - 1, |b| - 1;
      assert a[m] in b && b[n] in a;
      assert a[m] == b[n];
      forall x: nat ensures x in a[..m] <==> x in b[..n] {
        assert x in a[..m] <==> x in a && x != a[m];
        assert x in b[..n] <==> x in b && x != b[n];
      }
      RisingSame(a[..m], b[..n]);
      InitAndLast(a);
      InitAndLast(b);
    }
  }

  lemma {:induction false} ReadOffOnce(blocks: seq<Block>, want: Block -> bool, a: seq<string>, b: seq<string>)
    requires ReadOff(blocks, want, a) && ReadOff(blocks, want, b)
    ensures a == b
  {
    var p: seq<nat> :| ReadAt(blocks, want, a, p);
    var q: seq<nat> :| ReadAt(blocks, want, b, q);
    RisingSame(p, q);
  }

  lemma {:induction false} CallOnce(p: Parser, d: seq<Line>, id: string, i: nat, t: map<(string, nat), CallRow>,
                                    u: map<(string, nat), CallRow>)
    requires CallIs(p, d, id, i, t) && CallIs(p, d, id, i, u) && (id, i) in t
    ensures (id, i) in u && t[(id, i)] == u[(id, i)]
  {
    var j: nat :| CallAt(d, i, j, id);
    var k := SomeLastCall(d, i, j, id);
  }

  lemma {:induction false} MessageOnce(p: Parser, d: seq<Line>, i: nat, t: map<nat, AssistantRow>,
                                       u: map<nat, AssistantRow>)
    requires MessageIs(p, d, i, t) && MessageIs(p, d, i, u) && i in t
    ensures i in u && t[i] == u[i]
  {
    ReadOffOnce(d[i].content.blocks, Said, t[i].text, u[i].text);
    ReadOffOnce(d[i].content.blocks, Thought, t[i].thinking, u[i].thinking);
  }

  lemma {:induction false} EditCallOnce(d: seq<Line>, id: string, a: EditRow, b: EditRow)
    requires EditCallIs(d, id, a) && EditCallIs(d, id, b)
    ensures a.seqNo == b.seqNo && a.ts == b.ts && a.inputLen == b.inputLen
  {
    if i: nat, j: nat :| EditAt(d, i, j, id) { var k, l := SomeLastEdit(d, i, j, id); }
  }

  lemma {:induction false} EditVerdictOnce(p: Parser, d: seq<Line>, id: string, a: EditRow, b: EditRow)
    requires EditVerdictIs(p, d, id, a) && EditVerdictIs(p, d, id, b)
    ensures a.success == b.success && a.warnings == b.warnings
  {
    if i: nat :| EditResultAt(d, i, id) { var k := SomeLastResult(d, i, id); }
  }

  lemma {:induction false} EditOnce(p: Parser, v: nat, d: seq<Line>, id: string, t: map<string, EditRow>,
                                    u: map<string, EditRow>)
    requires EditIs(p, v, d, id, t) && EditIs(p, v, d, id, u) && id in t
    ensures id in u && t[id] == u[id]
  {
    EditCallOnce(d, id, t[id], u[id]);
    EditVerdictOnce(p, d, id, t[id], u[id]);
  }

  lemma {:induction false} SectionOnce(p: Parser, v: nat, d: seq<Line>, id: string, k: nat,
                                       t: map<(string, nat), SectionRow>, u: map<(string, nat), SectionRow>)
    requires SectionIs(p, v, d, id, k, t) && SectionIs(p, v, d, id, k, u) && (id, k) in t
    ensures (id, k) in u && t[(id, k)] == u[(id, k)]
  {
    var i: nat, j: nat :| SectionAt(p, d, i, j, id, k);
    var m, n := SomeLastSection(p, d, i, j, id, k);
  }

  ghost predicate Within<K, V>(t: map<K, V>, u: map<K, V>) {
    forall k :: k in t ==> k in u && t[k] == u[k]
  }

  lemma BothWithin<K, V>(t: map<K, V>, u: map<K, V>)
    requires Within(t, u) && Within(u, t)
    ensures t == u
  {
  }

  lemma {:induction false} TablesWithin(p: Parser, v: nat, d: seq<Line>, t: Tables, u: Tables)
    requires SaysFile(p, v, d, t) && SaysFile(p, v, d, u)
    ensures Within(t.calls, u.calls) && Within(t.results, u.results) && Within(t.assistant, u.assistant)
    ensures Within(t.users, u.users) && Within(t.edits, u.edits) && Within(t.sections, u.sections)
  {
    forall key | key in t.calls ensures key in u.calls && t.calls[key] == u.calls[key] {
      var (id, i) := key;
      assert CallIs(p, d, id, i, t.calls) && CallIs(p, d, id, i, u.calls);
      CallOnce(p, d, id, i, t.calls, u.calls);
    }
    forall key | key in t.results ensures key in u.results && t.results[key] == u.results[key] {
      assert ResultIs(p, d, key.0, key.1, t.results) && ResultIs(p, d, key.0, key.1, u.results);
    }
    forall i | i in t.assistant ensures i in u.assistant && t.assistant[i] == u.assistant[i] {
      assert MessageIs(p, d, i, t.assistant) && MessageIs(p, d, i, u.assistant);
      MessageOnce(p, d, i, t.assistant, u.assistant);
    }
    forall i | i in t.users ensures i in u.users && t.users[i] == u.users[i] {
      assert UserIs(p, d, i, t.users) && UserIs(p, d, i, u.users);
    }
    forall id | id in t.edits ensures id in u.edits && t.edits[id] == u.edits[id] {
      assert EditIs(p, v, d, id, t.edits) && EditIs(p, v, d, id, u.edits);
      EditOnce(p, v, d, id, t.edits, u.edits);
    }
    forall key | key in t.sections ensures key in u.sections && t.sections[key] == u.sections[key] {
      var (id, k) := key;
      assert SectionIs(p, v, d, id, k, t.sections) && SectionIs(p, v, d, id, k, u.sections);
      SectionOnce(p, v, d, id, k, t.sections, u.sections);
    }
  }

  /** Only one set of tables says what the file says. */
  lemma {:induction false} FileDetermines(p: Parser, v: nat, d: seq<Line>, t: Tables, u: Tables)
    requires SaysFile(p, v, d, t) && SaysFile(p, v, d, u)
    ensures t == u
  {
    TablesWithin(p, v, d, t, u);
    TablesWithin(p, v, d, u, t);
    BothWithin(t.calls, u.calls);
    BothWithin(t.results, u.results);
    BothWithin(t.assistant, u.assistant);
    BothWithin(t.users, u.users);
    BothWithin(t.edits, u.edits);
    BothWithin(t.sections, u.sections);
  }

  /** After any run without downgrades that ends with a sync the tables hold just that, row by row,
      and no other tables do. */
  lemma {:induction false} RunSaysFile(ps: Parsers, events: seq<Event>)
    requires forall e <- events :: Grows(e)
    requires NeverDowngraded(ps, events) && events != [] && events[|events| - 1].Sync?
    ensures var s, v := Run(ps, events), events[|events| - 1].v;
            forall t: Tables :: SaysFile(ps(v), v, s.disk, t) <==> t == s.tables
  {
    var s, v := Run(ps, events), events[|events| - 1].v;
    RunEqualsRebuild(ps, events);
    FreshSaysFile(ps, v, s.disk);
    forall t: Tables | SaysFile(ps(v), v, s.disk, t) ensures t == s.tables {
      FileDetermines(ps(v), v, s.disk, t, s.tables);
    }
  }
}

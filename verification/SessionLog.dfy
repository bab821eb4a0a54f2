/** What one line of a session file turns into, and how the rows reach the tables
    (scripts/session-stats/sync.py). */
module SessionLog {
  import opened Common

  // ---------- Session files ----------

  datatype Meta = Meta(started: Option<int>, title: Option<string>, cwd: Option<string>,
                       uuid: Option<string>, version: Option<string>)
  const NO_META := Meta(None, None, None, None, None)

  datatype Entry = Entry(id: string, ts: int)

  /** `args` are a call's arguments as stored, `input` is the edit text among them, as bytes. */
  datatype Block =
    | ToolCall(callId: string, tool: string, args: string, input: string)
    | Thinking(t: string)
    | Text(t: string)
    | OtherBlock

  datatype Content =
    | Unreadable                       // blank, or not JSON
    | Header(meta: Meta)
    | Assistant(entry: Entry, blocks: seq<Block>)
    | ToolResult(entry: Entry, callId: string, tool: string, text: string, isError: bool)
    | User(entry: Entry, text: string)
    | Ignored

  /** A line with its newline, so never empty. */
  datatype Line = Line(bytes: nat, content: Content)

  function Bytes(lines: seq<Line>): nat {
    if lines == [] then 0 else lines[0].bytes + Bytes(lines[1..])
  }

  predicate WholeLines(lines: seq<Line>) {
    forall l <- lines :: l.bytes > 0
  }

  // ---------- Rows ----------

  datatype CallRow = CallRow(entry: Entry, tool: string, args: string, tokens: nat)
  datatype ResultRow = ResultRow(entry: Entry, tool: string, text: string, tokens: nat, isError: bool)
  datatype AssistantRow = AssistantRow(entry: Entry, text: seq<string>, thinking: seq<string>,
                                       textTokens: nat, thinkingTokens: nat)
  datatype UserRow = UserRow(entry: Entry, text: string, tokens: nat)
  datatype EditRow = EditRow(seqNo: nat, ts: int, inputLen: nat, success: Option<bool>, warnings: seq<string>,
                             parser: nat)
  datatype SectionRow = SectionRow(seqNo: nat, section: string, parser: nat)

  datatype EditStub = EditStub(callId: string, seqNo: nat, ts: int, inputLen: nat)
  datatype EditVerdict = EditVerdict(callId: string, success: bool, warnings: seq<string>)

  /** Rows are lists of (key, row); a key is what the table declares UNIQUE, without the
      session file. */
  datatype Records = Records(
    meta: Meta,
    calls: seq<((string, nat), CallRow)>,
    results: seq<((string, nat), ResultRow)>,
    assistant: seq<(nat, AssistantRow)>,
    users: seq<(nat, UserRow)>,
    stubs: seq<EditStub>,
    verdicts: seq<EditVerdict>,
    sections: seq<((string, nat), SectionRow)>)

  const NO_RECORDS := Records(NO_META, [], [], [], [], [], [], [])

  /** What one parser version makes of edit inputs and results, and the tokenizer. */
  datatype Parser = Parser(sections: string -> seq<string>, successful: string -> bool,
                           warnings: string -> seq<string>, tokens: string -> nat)
  type Parsers = nat -> Parser

  function Coalesce<T>(newer: Option<T>, older: Option<T>): Option<T> {
    if newer.Some? then newer else older
  }

  function CoalesceMeta(newer: Meta, older: Meta): Meta {
    Meta(Coalesce(newer.started, older.started), Coalesce(newer.title, older.title), Coalesce(newer.cwd, older.cwd),
         Coalesce(newer.uuid, older.uuid), Coalesce(newer.version, older.version))
  }

  function Cat(a: Records, b: Records): Records {
    Records(CoalesceMeta(b.meta, a.meta), a.calls + b.calls, a.results + b.results, a.assistant + b.assistant,
            a.users + b.users, a.stubs + b.stubs, a.verdicts + b.verdicts, a.sections + b.sections)
  }

  // ---------- Ingestion ----------

  /** Only texts that are not empty are sent to the tokenizer. */
  function Tokens(p: Parser, text: string): nat {
    if text == "" then 0 else p.tokens(text)
  }

  function SectionRows(sections: seq<string>, callId: string, seqNo: nat, v: nat): seq<((string, nat), SectionRow)> {
    seq(|sections|, i requires 0 <= i < |sections| => ((callId, i), SectionRow(seqNo, sections[i], v)))
  }

  /** The tool calls of one assistant message, in order. */
  function IngestBlocks(ps: Parsers, v: nat, e: Entry, blocks: seq<Block>, seqNo: nat): Records {
    if blocks == [] then NO_RECORDS
    else
      var rest := IngestBlocks(ps, v, e, blocks[1..], seqNo);
      match blocks[0]
      case ToolCall(id, tool, args, input) => Cat(IngestCall(ps, v, e, id, tool, args, input, seqNo), rest)
      case _ => rest
  }

  function IngestCall(ps: Parsers, v: nat, e: Entry, id: string, tool: string, args: string, input: string,
                      seqNo: nat): Records {
    var r := NO_RECORDS.(calls := [((id, seqNo), CallRow(e, tool, args, Tokens(ps(v), args)))]);
    if tool != "edit" then r
    else r.(stubs := [EditStub(id, seqNo, e.ts, |input|)],
            sections := SectionRows(ps(v).sections(input), id, seqNo, v))
  }

  function Texts(blocks: seq<Block>): seq<string> {
    if blocks == [] then []
    else (if blocks[0].Text? && blocks[0].t != "" then [blocks[0].t] else []) + Texts(blocks[1..])
  }

  function Thoughts(blocks: seq<Block>): seq<string> {
    if blocks == [] then []
    else (if blocks[0].Thinking? && blocks[0].t != "" then [blocks[0].t] else []) + Thoughts(blocks[1..])
  }

  function MessageRow(p: Parser, e: Entry, blocks: seq<Block>, seqNo: nat): Records {
    var texts, thoughts := Texts(blocks), Thoughts(blocks);
    if texts == [] && thoughts == [] then NO_RECORDS
    else
      var row := AssistantRow(e, texts, thoughts, Tokens(p, JoinLines(texts)), Tokens(p, JoinLines(thoughts)));
      NO_RECORDS.(assistant := [(seqNo, row)])
  }

  /** The rows of the line at position `seqNo` of its file. A header counts only as line 0. */
  function Ingest(ps: Parsers, v: nat, c: Content, seqNo: nat): Records {
    match c
    case Header(meta) => if seqNo == 0 then NO_RECORDS.(meta := meta) else NO_RECORDS
    case Assistant(e, blocks) => Cat(IngestBlocks(ps, v, e, blocks, seqNo), MessageRow(ps(v), e, blocks, seqNo))
    case ToolResult(e, id, tool, text, isError) =>
      var r := NO_RECORDS.(results := [((id, seqNo), ResultRow(e, tool, text, Tokens(ps(v), text), isError))]);
      if tool != "edit" then r
      else
        var ok := ps(v).successful(text);
        r.(verdicts := [EditVerdict(id, ok, if ok then ps(v).warnings(text) else [])])
    case User(e, text) =>
      if text == "" then NO_RECORDS else NO_RECORDS.(users := [(seqNo, UserRow(e, text, ps(v).tokens(text)))])
    case _ => NO_RECORDS
  }

  function Parse(ps: Parsers, v: nat, lines: seq<Line>, seqNo: nat): Records {
    if lines == [] then NO_RECORDS
    else Cat(Ingest(ps, v, lines[0].content, seqNo), Parse(ps, v, lines[1..], seqNo + 1))
  }

  lemma CatAssociates(a: Records, b: Records, c: Records)
    ensures Cat(Cat(a, b), c) == Cat(a, Cat(b, c))
    ensures Cat(a, NO_RECORDS) == a == Cat(NO_RECORDS, a)
  {
    assert a.calls + b.calls + c.calls == a.calls + (b.calls + c.calls);
    assert a.results + b.results + c.results == a.results + (b.results + c.results);
    assert a.assistant + b.assistant + c.assistant == a.assistant + (b.assistant + c.assistant);
    assert a.users + b.users + c.users == a.users + (b.users + c.users);
    assert a.stubs + b.stubs + c.stubs == a.stubs + (b.stubs + c.stubs);
    assert a.verdicts + b.verdicts + c.verdicts == a.verdicts + (b.verdicts + c.verdicts);
    assert a.sections + b.sections + c.sections == a.sections + (b.sections + c.sections);
  }

  /** Parsing a file in two pieces, the second numbered on from the first, gives the rows of
      one pass. */
  lemma {:induction false} ParseAppend(ps: Parsers, v: nat, a: seq<Line>, b: seq<Line>, seqNo: nat)
    ensures Parse(ps, v, a + b, seqNo) == Cat(Parse(ps, v, a, seqNo), Parse(ps, v, b, seqNo + |a|))
    decreases a
  {
    if a == [] {
      assert a + b == b;
      CatAssociates(Parse(ps, v, b, seqNo), NO_RECORDS, NO_RECORDS);
    } else {
      CatTail(a, b);
      ParseAppend(ps, v, a[1..], b, seqNo + 1);
      CatAssociates(Ingest(ps, v, a[0].content, seqNo), Parse(ps, v, a[1..], seqNo + 1),
                    Parse(ps, v, b, seqNo + |a|));
    }
  }

  // ---------- Tables ----------

  /** The rows of one session file in the six data tables, and its metadata. */
  datatype Tables = Tables(
    meta: Meta,
    calls: map<(string, nat), CallRow>,
    results: map<(string, nat), ResultRow>,
    assistant: map<nat, AssistantRow>,
    users: map<nat, UserRow>,
    edits: map<string, EditRow>,
    sections: map<(string, nat), SectionRow>)

  const NO_TABLES := Tables(NO_META, map[], map[], map[], map[], map[], map[])

  /** INSERT OR REPLACE, row by row. */
  function PutAll<K, V>(t: map<K, V>, rows: seq<(K, V)>): map<K, V>
    decreases rows
  {
    if rows == [] then t else PutAll(t[rows[0].0 := rows[0].1], rows[1..])
  }

  /** INSERT, or on conflict overwrite the call's own columns and keep the verdict. */
  function PutStub(t: map<string, EditRow>, s: EditStub, v: nat): map<string, EditRow> {
    t[s.callId := if s.callId in t
                  then t[s.callId].(seqNo := s.seqNo, ts := s.ts, inputLen := s.inputLen, parser := v)
                  else EditRow(s.seqNo, s.ts, s.inputLen, None, [], v)]
  }

  /** INSERT, or on conflict overwrite the verdict and keep the call's own columns. */
  function PutVerdict(t: map<string, EditRow>, r: EditVerdict, v: nat): map<string, EditRow> {
    t[r.callId := if r.callId in t
                  then t[r.callId].(success := Some(r.success), warnings := r.warnings, parser := v)
                  else EditRow(0, 0, 0, Some(r.success), r.warnings, v)]
  }

  function PutStubs(t: map<string, EditRow>, ss: seq<EditStub>, v: nat): map<string, EditRow>
    decreases ss
  {
    if ss == [] then t else PutStubs(PutStub(t, ss[0], v), ss[1..], v)
  }

  function PutVerdicts(t: map<string, EditRow>, rs: seq<EditVerdict>, v: nat): map<string, EditRow>
    decreases rs
  {
    if rs == [] then t else PutVerdicts(PutVerdict(t, rs[0], v), rs[1..], v)
  }

  /** One transaction: per batch, all call stubs before all verdicts. */
  function Apply(t: Tables, r: Records, v: nat): Tables {
    Tables(CoalesceMeta(r.meta, t.meta), PutAll(t.calls, r.calls), PutAll(t.results, r.results),
           PutAll(t.assistant, r.assistant), PutAll(t.users, r.users),
           PutVerdicts(PutStubs(t.edits, r.stubs, v), r.verdicts, v),
           PutAll(t.sections, r.sections))
  }

  lemma {:induction false} PutAllAppend<K, V>(t: map<K, V>, a: seq<(K, V)>, b: seq<(K, V)>)
    ensures PutAll(t, a + b) == PutAll(PutAll(t, a), b)
    decreases a
  {
    if a == [] {
      assert a + b == b;
    } else {
      CatTail(a, b);
      PutAllAppend(t[a[0].0 := a[0].1], a[1..], b);
    }
  }

  lemma {:induction false} PutStubsAppend(t: map<string, EditRow>, a: seq<EditStub>, b: seq<EditStub>, v: nat)
    ensures PutStubs(t, a + b, v) == PutStubs(PutStubs(t, a, v), b, v)
    decreases a
  {
    if a == [] {
      assert a + b == b;
    } else {
      CatTail(a, b);
      PutStubsAppend(PutStub(t, a[0], v), a[1..], b, v);
    }
  }

  lemma {:induction false} PutVerdictsAppend(t: map<string, EditRow>, a: seq<EditVerdict>, b: seq<EditVerdict>, v: nat)
    ensures PutVerdicts(t, a + b, v) == PutVerdicts(PutVerdicts(t, a, v), b, v)
    decreases a
  {
    if a == [] {
      assert a + b == b;
    } else {
      CatTail(a, b);
      PutVerdictsAppend(PutVerdict(t, a[0], v), a[1..], b, v);
    }
  }

  /** A call and a result may arrive in either order: the two upserts commute. */
  lemma StubVerdictCommute(t: map<string, EditRow>, s: EditStub, r: EditVerdict, v: nat)
    ensures PutStub(PutVerdict(t, r, v), s, v) == PutVerdict(PutStub(t, s, v), r, v)
  {
  }

  lemma {:induction false} StubPastVerdicts(t: map<string, EditRow>, s: EditStub, rs: seq<EditVerdict>, v: nat)
    ensures PutStub(PutVerdicts(t, rs, v), s, v) == PutVerdicts(PutStub(t, s, v), rs, v)
    decreases rs
  {
    if rs != [] {
      StubPastVerdicts(PutVerdict(t, rs[0], v), s, rs[1..], v);
      StubVerdictCommute(t, s, rs[0], v);
    }
  }

  lemma {:induction false} StubsPastVerdicts(t: map<string, EditRow>, ss: seq<EditStub>, rs: seq<EditVerdict>, v: nat)
    ensures PutStubs(PutVerdicts(t, rs, v), ss, v) == PutVerdicts(PutStubs(t, ss, v), rs, v)
    decreases ss
  {
    if ss != [] {
      StubPastVerdicts(t, ss[0], rs, v);
      StubsPastVerdicts(PutStub(t, ss[0], v), ss[1..], rs, v);
    }
  }

  /** Two transactions leave what one transaction with both batches leaves, although the one
      writes every call stub of both batches before any verdict. */
  lemma ApplyCat(t: Tables, a: Records, b: Records, v: nat)
    ensures Apply(Apply(t, a, v), b, v) == Apply(t, Cat(a, b), v)
  {
    PutAllAppend(t.calls, a.calls, b.calls);
    PutAllAppend(t.results, a.results, b.results);
    PutAllAppend(t.assistant, a.assistant, b.assistant);
    PutAllAppend(t.users, a.users, b.users);
    PutAllAppend(t.sections, a.sections, b.sections);
    var e := PutStubs(t.edits, a.stubs, v);
    PutStubsAppend(t.edits, a.stubs, b.stubs, v);
    PutVerdictsAppend(PutStubs(e, b.stubs, v), a.verdicts, b.verdicts, v);
    StubsPastVerdicts(e, b.stubs, a.verdicts, v);
  }
}

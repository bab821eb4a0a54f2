/** Incremental sync of append-only session files: the decision what to do with a file, the
    loop that parses new lines, the transaction that writes them, and every run of these
    (scripts/session-stats/sync.py). */
module SessionSync {
  import opened Common
  import opened SessionLog

  /** The bookkeeping columns of `ss_sessions`. */
  datatype SyncRow = SyncRow(mtime: int, size: nat, offset: nat, lineCount: nat, parser: nat)

  datatype Action = Skip | Ingest(rebuild: bool, offset: nat, seqNo: nat)

  function DecideAction(prev: Option<SyncRow>, full: bool, v: nat, mtime: int, size: nat): Action {
    if full || prev.None? then Ingest(true, 0, 0)
    else
      var p := prev.value;
      if p.parser < v then Ingest(true, 0, 0)
      else if size == p.size && mtime <= p.mtime then Skip
      else if size < p.offset then Ingest(true, 0, 0)
      else if size == p.offset && mtime > p.mtime then Ingest(true, 0, 0)
      else Ingest(false, p.offset, p.lineCount)
  }

  /** Seeking to a byte offset: the lines from there on, when it is a line boundary. */
  function Seek(lines: seq<Line>, offset: nat): seq<Line> {
    if offset == 0 || lines == [] then lines
    else if lines[0].bytes > offset then []
    else Seek(lines[1..], offset - lines[0].bytes)
  }

  datatype Parsed = Parsed(records: Records, offset: nat, lineCount: nat)

  function ParseFrom(ps: Parsers, v: nat, file: seq<Line>, offset: nat, seqNo: nat): Parsed {
    var rest := Seek(file, offset);
    Parsed(Parse(ps, v, rest, seqNo), offset + Bytes(rest), seqNo + |rest|)
  }

  /** One pass over the new lines, counting every line, readable or not. */
  method ParseFile(ps: Parsers, v: nat, file: seq<Line>, startOffset: nat, startSeq: nat) returns (parsed: Parsed)
    ensures parsed == ParseFrom(ps, v, file, startOffset, startSeq)
  {
    var lines := Seek(file, startOffset);
    var rec, offset, seqNo := NO_RECORDS, startOffset, startSeq;
    ghost var whole := Parse(ps, v, lines, startSeq);
    CatAssociates(whole, NO_RECORDS, NO_RECORDS);
    assert lines[0..] == lines;
    var i := 0;
    while i < |lines|
      invariant 0 <= i <= |lines| && seqNo == startSeq + i
      invariant Cat(rec, Parse(ps, v, lines[i..], seqNo)) == whole
      invariant offset + Bytes(lines[i..]) == startOffset + Bytes(lines)
    {
      ParseStep(ps, v, rec, lines, i, seqNo);
      rec := IngestLine(ps, v, rec, lines[i].content, seqNo);
      offset := offset + lines[i].bytes;
      seqNo := seqNo + 1;
      i := i + 1;
    }
    assert lines[i..] == [];
    CatAssociates(rec, NO_RECORDS, NO_RECORDS);
    parsed := Parsed(rec, offset, seqNo);
  }

  lemma {:induction false} ParseStep(ps: Parsers, v: nat, rec: Records, lines: seq<Line>, i: nat, seqNo: nat)
    requires i < |lines|
    ensures Cat(Cat(rec, SessionLog.Ingest(ps, v, lines[i].content, seqNo)), Parse(ps, v, lines[i + 1..], seqNo + 1)) ==
            Cat(rec, Parse(ps, v, lines[i..], seqNo))
    ensures Bytes(lines[i..]) == lines[i].bytes + Bytes(lines[i + 1..])
  {
    assert lines[i..][0] == lines[i] && lines[i..][1..] == lines[i + 1..];
    CatAssociates(rec, SessionLog.Ingest(ps, v, lines[i].content, seqNo), Parse(ps, v, lines[i + 1..], seqNo + 1));
  }

  method IngestLine(ps: Parsers, v: nat, rec0: Records, c: Content, seqNo: nat) returns (rec: Records)
    ensures rec == Cat(rec0, SessionLog.Ingest(ps, v, c, seqNo))
  {
    rec := rec0;
    CatAssociates(rec0, NO_RECORDS, NO_RECORDS);
    match c {
      case Header(meta) =>
        if seqNo == 0 { rec := rec.(meta := CoalesceMeta(meta, rec.meta)); }
      case Assistant(e, blocks) =>
        rec := IngestAssistant(ps, v, rec, e, blocks, seqNo);
      case ToolResult(e, id, tool, text, isError) =>
        rec := rec.(results := rec.results + [((id, seqNo), ResultRow(e, tool, text, Tokens(ps(v), text), isError))]);
        if tool == "edit" {
          var ok := ps(v).successful(text);
          var warnings := if ok then ps(v).warnings(text) else [];
          rec := rec.(verdicts := rec.verdicts + [EditVerdict(id, ok, warnings)]);
        }
      case User(e, text) =>
        if text != "" { rec := rec.(users := rec.users + [(seqNo, UserRow(e, text, ps(v).tokens(text)))]); }
      case Unreadable =>
      case Ignored =>
    }
  }

  method IngestAssistant(ps: Parsers, v: nat, rec0: Records, e: Entry, blocks: seq<Block>,
                         seqNo: nat) returns (rec: Records)
    ensures rec == Cat(rec0, SessionLog.Ingest(ps, v, Assistant(e, blocks), seqNo))
  {
    var texts: seq<string>, thoughts: seq<string>;
    rec, texts, thoughts := IngestBlockLoop(ps, v, rec0, e, blocks, seqNo);
    ghost var calls := rec;
    if texts != [] || thoughts != [] {
      var row := AssistantRow(e, texts, thoughts, Tokens(ps(v), JoinLines(texts)), Tokens(ps(v), JoinLines(thoughts)));
      rec := rec.(assistant := rec.assistant + [(seqNo, row)]);
    }
    CatAssociates(calls, NO_RECORDS, NO_RECORDS);
    assert rec == Cat(calls, MessageRow(ps(v), e, blocks, seqNo));
    CatAssociates(rec0, IngestBlocks(ps, v, e, blocks, seqNo), MessageRow(ps(v), e, blocks, seqNo));
  }

  method IngestBlockLoop(ps: Parsers, v: nat, rec0: Records, e: Entry, blocks: seq<Block>, seqNo: nat)
    returns (rec: Records, texts: seq<string>, thoughts: seq<string>)
    ensures rec == Cat(rec0, IngestBlocks(ps, v, e, blocks, seqNo))
    ensures texts == Texts(blocks) && thoughts == Thoughts(blocks)
  {
    rec, texts, thoughts := rec0, [], [];
    var i := 0;
    assert blocks[0..] == blocks;
    while i < |blocks|
      invariant 0 <= i <= |blocks|
      invariant Cat(rec, IngestBlocks(ps, v, e, blocks[i..], seqNo)) == Cat(rec0, IngestBlocks(ps, v, e, blocks, seqNo))
      invariant texts + Texts(blocks[i..]) == Texts(blocks) && thoughts + Thoughts(blocks[i..]) == Thoughts(blocks)
    {
      BlockStep(ps, v, e, blocks, i, seqNo, rec, texts, thoughts);
      match blocks[i] {
        case ToolCall(id, tool, args, input) => rec := IngestToolCall(ps, v, rec, e, id, tool, args, input, seqNo);
        case Thinking(t) => if t != "" { thoughts := thoughts + [t]; }
        case Text(t) => if t != "" { texts := texts + [t]; }
        case OtherBlock =>
      }
      i := i + 1;
    }
    assert blocks[i..] == [];
    CatAssociates(rec, NO_RECORDS, NO_RECORDS);
  }

  /** The rows one block adds. */
  function BlockRows(ps: Parsers, v: nat, e: Entry, b: Block, seqNo: nat): Records {
    match b
    case ToolCall(id, tool, args, input) => IngestCall(ps, v, e, id, tool, args, input, seqNo)
    case _ => NO_RECORDS
  }

  lemma {:induction false} BlockStep(ps: Parsers, v: nat, e: Entry, blocks: seq<Block>, i: nat, seqNo: nat,
                  rec: Records, texts: seq<string>, thoughts: seq<string>)
    requires i < |blocks|
    ensures var b := blocks[i];
            var rest := blocks[i + 1..];
            && Cat(rec, IngestBlocks(ps, v, e, blocks[i..], seqNo))
               == Cat(if b.ToolCall? then Cat(rec, BlockRows(ps, v, e, b, seqNo)) else rec,
                      IngestBlocks(ps, v, e, rest, seqNo))
            && texts + Texts(blocks[i..]) == (if b.Text? && b.t != "" then texts + [b.t] else texts) + Texts(rest)
            && thoughts + Thoughts(blocks[i..])
               == (if b.Thinking? && b.t != "" then thoughts + [b.t] else thoughts) + Thoughts(rest)
  {
    DropHead(blocks, i);
    CatAssociates(rec, BlockRows(ps, v, e, blocks[i], seqNo), IngestBlocks(ps, v, e, blocks[i + 1..], seqNo));
  }

  method IngestToolCall(ps: Parsers, v: nat, rec0: Records, e: Entry, id: string, tool: string, args: string,
                        input: string, seqNo: nat)
    returns (rec: Records)
    ensures rec == Cat(rec0, IngestCall(ps, v, e, id, tool, args, input, seqNo))
  {
    CatAssociates(rec0, NO_RECORDS, NO_RECORDS);
    rec := rec0.(calls := rec0.calls + [((id, seqNo), CallRow(e, tool, args, Tokens(ps(v), args)))]);
    if tool == "edit" {
      rec := rec.(stubs := rec.stubs + [EditStub(id, seqNo, e.ts, |input|)],
                  sections := rec.sections + SectionRows(ps(v).sections(input), id, seqNo, v));
    }
  }

  // ---------- The database ----------

  /** One transaction over a session's rows. A rebuild deletes the data rows first, but not the
      metadata columns, which are only coalesced. */
  function Written(t: Tables, r: Records, rebuild: bool, v: nat): Tables {
    Apply(if rebuild then NO_TABLES.(meta := t.meta) else t, r, v)
  }

  /** The database: every table's rows, grouped by the session file that leads each key. */
  class SessionStore {
    var sessions: map<string, SyncRow>
    var tables: map<string, Tables>

    function Row(file: string): Option<SyncRow>
      reads this
    {
      if file in sessions then Some(sessions[file]) else None
    }

    function Rows(file: string): Tables
      reads this
    {
      if file in tables then tables[file] else NO_TABLES
    }

    method WriteRecords(file: string, parsed: Parsed, rebuild: bool, v: nat, mtime: int, size: nat)
      modifies this
      ensures Rows(file) == Written(old(Rows(file)), parsed.records, rebuild, v)
      ensures Row(file) == Some(SyncRow(mtime, size, parsed.offset, parsed.lineCount, v))
      ensures forall f :: f != file ==> Rows(f) == old(Rows(f)) && Row(f) == old(Row(f))
    {
      var t := Rows(file);
      if rebuild { t := NO_TABLES.(meta := t.meta); }
      var rec := parsed.records;
      var calls := InsertOrReplace(t.calls, rec.calls);
      var results := InsertOrReplace(t.results, rec.results);
      var assistant := InsertOrReplace(t.assistant, rec.assistant);
      var users := InsertOrReplace(t.users, rec.users);
      var edits := UpsertEdits(t.edits, rec.stubs, rec.verdicts, v);
      var sections := InsertOrReplace(t.sections, rec.sections);
      t := Tables(CoalesceMeta(rec.meta, t.meta), calls, results, assistant, users, edits, sections);
      tables := tables[file := t];
      sessions := sessions[file := SyncRow(mtime, size, parsed.offset, parsed.lineCount, v)];
    }

    /** One file of one sync. The decision sees the size of `disk`; the parser's own stat and its
        read come later and may see a file grown by `before` and then by `after`. */
    method SyncFile(ps: Parsers, file: string, full: bool, v: nat, mtime0: int, mtime1: int,
                    disk: seq<Line>, before: seq<Line>, after: seq<Line>)
      modifies this
      ensures var s' := Step(ps, State(disk, old(Row(file)), old(Rows(file))),
                             Sync(full, v, mtime0, before, mtime1, after));
              Row(file) == s'.row && Rows(file) == s'.tables
      ensures forall f :: f != file ==> Rows(f) == old(Rows(f)) && Row(f) == old(Row(f))
    {
      match DecideAction(Row(file), full, v, mtime0, Bytes(disk)) {
        case Skip =>
        case Ingest(rebuild, offset, seqNo) =>
          var parsed := ParseFile(ps, v, disk + before + after, offset, seqNo);
          WriteRecords(file, parsed, rebuild, v, mtime1, Bytes(disk + before));
      }
    }
  }

  method InsertOrReplace<K, V>(table: map<K, V>, rows: seq<(K, V)>) returns (t: map<K, V>)
    ensures t == PutAll(table, rows)
  {
    t := table;
    var i := 0;
    assert rows[0..] == rows;
    while i < |rows|
      invariant 0 <= i <= |rows| && PutAll(t, rows[i..]) == PutAll(table, rows)
    {
      assert rows[i..][1..] == rows[i + 1..];
      t := t[rows[i].0 := rows[i].1];
      i := i + 1;
    }
    assert rows[i..] == [];
  }

  method UpsertEdits(table: map<string, EditRow>, stubs: seq<EditStub>, verdicts: seq<EditVerdict>, v: nat)
    returns (t: map<string, EditRow>)
    ensures t == PutVerdicts(PutStubs(table, stubs, v), verdicts, v)
  {
    t := table;
    var i := 0;
    assert stubs[0..] == stubs;
    while i < |stubs|
      invariant 0 <= i <= |stubs| && PutStubs(t, stubs[i..], v) == PutStubs(table, stubs, v)
    {
      assert stubs[i..][1..] == stubs[i + 1..];
      t := PutStub(t, stubs[i], v);
      i := i + 1;
    }
    assert stubs[i..] == [];
    i := 0;
    assert verdicts[0..] == verdicts;
    while i < |verdicts|
      invariant 0 <= i <= |verdicts|
      invariant PutVerdicts(t, verdicts[i..], v) == PutVerdicts(PutStubs(table, stubs, v), verdicts, v)
    {
      assert verdicts[i..][1..] == verdicts[i + 1..];
      t := PutVerdict(t, verdicts[i], v);
      i := i + 1;
    }
    assert verdicts[i..] == [];
  }

  // ---------- Runs ----------

  /** A session file and what the database knows of it. */
  datatype State = State(disk: seq<Line>, row: Option<SyncRow>, tables: Tables)

  /** The agent appends lines, or a sync visits the file. While a sync runs the file may grow
      by `before` between the decision and the parser's stat, and by `after` between that stat
      and the end of the read. */
  datatype Event =
    | Append(lines: seq<Line>)
    | Sync(full: bool, v: nat, mtime0: int, before: seq<Line>, mtime1: int, after: seq<Line>)

  const START := State([], None, NO_TABLES)

  function Step(ps: Parsers, s: State, e: Event): State {
    match e
    case Append(lines) => s.(disk := s.disk + lines)
    case Sync(full, v, mtime0, before, mtime1, after) =>
      match DecideAction(s.row, full, v, mtime0, Bytes(s.disk))
      case Skip => s
      case Ingest(rebuild, offset, seqNo) =>
        var disk := s.disk + before + after;
        var parsed := ParseFrom(ps, v, disk, offset, seqNo);
        State(disk, Some(SyncRow(mtime1, Bytes(s.disk + before), parsed.offset, parsed.lineCount, v)),
              Written(s.tables, parsed.records, rebuild, v))
  }

  function Run(ps: Parsers, events: seq<Event>): State {
    if events == [] then START
    else Step(ps, Run(ps, events[..|events| - 1]), events[|events| - 1])
  }

  /** One full rebuild of `lines` into an empty database. */
  function Fresh(ps: Parsers, v: nat, lines: seq<Line>): Tables {
    Apply(NO_TABLES, Parse(ps, v, lines, 0), v)
  }

  /** The tables are a full rebuild of some prefix of the file, the one the row says. */
  predicate Consistent(ps: Parsers, s: State) {
    WholeLines(s.disk) &&
    match s.row
    case None => s.tables == NO_TABLES
    case Some(r) =>
      r.lineCount <= |s.disk| && r.offset == Bytes(s.disk[..r.lineCount]) && r.size <= r.offset &&
      s.tables == Fresh(ps, r.parser, s.disk[..r.lineCount])
  }

  /** Only a database written by a newer parser version than the running one is a problem. */
  predicate NotDowngrade(s: State, e: Event) {
    e.Sync? && !e.full && s.row.Some? ==> s.row.value.parser <= e.v
  }

  predicate Grows(e: Event) {
    match e
    case Append(lines) => WholeLines(lines)
    case Sync(_, _, _, before, _, after) => WholeLines(before) && WholeLines(after)
  }

  lemma {:induction false} BytesAppend(a: seq<Line>, b: seq<Line>)
    ensures Bytes(a + b) == Bytes(a) + Bytes(b)
    decreases a
  {
    if a == [] {
      assert a + b == b;
    } else {
      CatTail(a, b);
      BytesAppend(a[1..], b);
    }
  }

  lemma {:induction false} SeekPastPrefix(a: seq<Line>, b: seq<Line>)
    requires WholeLines(a) && WholeLines(b)
    ensures Seek(a + b, Bytes(a)) == b
    decreases a
  {
    if a == [] {
      assert a + b == b;
    } else {
      CatTail(a, b);
      SeekPastPrefix(a[1..], b);
    }
  }

  lemma {:induction false} BytesPositive(a: seq<Line>)
    requires WholeLines(a) && a != []
    ensures Bytes(a) > 0
  {
  }

  function HeaderMeta(lines: seq<Line>): Meta {
    if lines != [] && lines[0].content.Header? then lines[0].content.meta else NO_META
  }

  lemma {:induction false} BlocksHaveNoMeta(ps: Parsers, v: nat, e: Entry, blocks: seq<Block>, seqNo: nat)
    ensures IngestBlocks(ps, v, e, blocks, seqNo).meta == NO_META
    decreases blocks
  {
    if blocks != [] { BlocksHaveNoMeta(ps, v, e, blocks[1..], seqNo); }
  }

  /** Metadata comes from line 0 alone. */
  lemma {:induction false} ParseMeta(ps: Parsers, v: nat, lines: seq<Line>, seqNo: nat)
    ensures Parse(ps, v, lines, seqNo).meta == if seqNo == 0 then HeaderMeta(lines) else NO_META
    decreases lines
  {
    if lines != [] {
      ParseMeta(ps, v, lines[1..], seqNo + 1);
      match lines[0].content
      case Assistant(e, blocks) => BlocksHaveNoMeta(ps, v, e, blocks, seqNo);
      case _ =>
    }
  }

  /** Whatever was in the database, a rebuild of a file's rows is exact but for metadata: a
      column keeps a stale value if and only if the file's header no longer has one. */
  lemma {:induction false} RebuildExactUnlessMetaStale(ps: Parsers, v: nat, t: Tables, lines: seq<Line>)
    ensures var got, want := Written(t, Parse(ps, v, lines, 0), true, v), Fresh(ps, v, lines);
            got.(meta := want.meta) == want &&
            (got == want <==> CoalesceMeta(HeaderMeta(lines), t.meta) == HeaderMeta(lines))
  {
    ParseMeta(ps, v, lines, 0);
  }

  lemma SkipMeansUnchanged(s: State, r: SyncRow)
    requires WholeLines(s.disk) && r.lineCount <= |s.disk| && r.offset == Bytes(s.disk[..r.lineCount])
    requires r.size <= r.offset && Bytes(s.disk) == r.size
    ensures r.lineCount == |s.disk| && s.disk[..r.lineCount] == s.disk
  {
    var a, b := s.disk[..r.lineCount], s.disk[r.lineCount..];
    assert a + b == s.disk;
    BytesAppend(a, b);
    if b != [] { BytesPositive(b); }
  }

  lemma AppendConsistent(ps: Parsers, s: State, e: Event)
    requires Consistent(ps, s) && e.Append? && Grows(e)
    ensures Consistent(ps, Step(ps, s, e)) && s.disk <= Step(ps, s, e).disk
  {
    if s.row.Some? { assert (s.disk + e.lines)[..s.row.value.lineCount] == s.disk[..s.row.value.lineCount]; }
  }

  lemma SyncConsistent(ps: Parsers, s: State, e: Event)
    requires Consistent(ps, s) && e.Sync? && Grows(e) && NotDowngrade(s, e)
    ensures var s' := Step(ps, s, e);
            Consistent(ps, s') && s.disk <= s'.disk && s'.row.Some? && s'.tables == Fresh(ps, e.v, s'.disk) &&
            s'.row.value.offset == Bytes(s'.disk) && s'.row.value.lineCount == |s'.disk|
  {
    match DecideAction(s.row, e.full, e.v, e.mtime0, Bytes(s.disk))
    case Skip => SkipMeansUnchanged(s, s.row.value);
    case Ingest(rebuild, offset, seqNo) =>
      var disk := s.disk + e.before + e.after;
      var parsed := ParseFrom(ps, e.v, disk, offset, seqNo);
      BytesAppend(s.disk + e.before, e.after);
      assert disk[..|disk|] == disk;
      if rebuild {
        RebuildConsistent(ps, s, e.v, disk);
      } else {
        ContinuesParse(ps, s, e.v, disk);
        IncrementConsistent(ps, s, e.v, disk);
      }
  }

  /** Every step keeps the tables a rebuild of a prefix; a sync makes it the whole file. */
  lemma StepConsistent(ps: Parsers, s: State, e: Event)
    requires Consistent(ps, s) && Grows(e) && NotDowngrade(s, e)
    ensures var s' := Step(ps, s, e);
            Consistent(ps, s') && s.disk <= s'.disk &&
            (e.Sync? ==> s'.row.Some? && s'.tables == Fresh(ps, e.v, s'.disk) &&
                         s'.row.value.offset == Bytes(s'.disk) && s'.row.value.lineCount == |s'.disk|)
  {
    if e.Append? { AppendConsistent(ps, s, e); } else { SyncConsistent(ps, s, e); }
  }

  /** Seeking to the recorded offset finds exactly the lines not yet counted. */
  lemma {:induction false} ContinuesParse(ps: Parsers, s: State, v: nat, disk: seq<Line>)
    requires Consistent(ps, s) && WholeLines(disk) && s.disk <= disk && s.row.Some?
    ensures var r := s.row.value;
            ParseFrom(ps, v, disk, r.offset, r.lineCount) ==
            Parsed(Parse(ps, v, disk[r.lineCount..], r.lineCount), Bytes(disk), |disk|)
  {
    var r := s.row.value;
    var a, b := disk[..r.lineCount], disk[r.lineCount..];
    assert a == s.disk[..r.lineCount] && a + b == disk;
    SeekPastPrefix(a, b);
    BytesAppend(a, b);
  }

  /** Continuing from the recorded offset and line count gives the tables of one rebuild. */
  lemma {:induction false} IncrementConsistent(ps: Parsers, s: State, v: nat, disk: seq<Line>)
    requires Consistent(ps, s) && s.disk <= disk && s.row.Some? && s.row.value.parser == v
    ensures var n := s.row.value.lineCount;
            Written(s.tables, Parse(ps, v, disk[n..], n), false, v) == Fresh(ps, v, disk)
  {
    var n := s.row.value.lineCount;
    var a, b := disk[..n], disk[n..];
    assert a == s.disk[..n] && a + b == disk;
    FreshAppend(ps, v, a, b);
    WrittenIncrement(s.tables, Parse(ps, v, b, n), v);
  }

  lemma WrittenIncrement(t: Tables, r: Records, v: nat)
    ensures Written(t, r, false, v) == Apply(t, r, v)
  {
  }

  lemma {:induction false} FreshAppend(ps: Parsers, v: nat, a: seq<Line>, b: seq<Line>)
    ensures Apply(Fresh(ps, v, a), Parse(ps, v, b, |a|), v) == Fresh(ps, v, a + b)
  {
    ParseAppend(ps, v, a, b, 0);
    ApplyBoth(NO_TABLES, Parse(ps, v, a, 0), Parse(ps, v, b, |a|), Parse(ps, v, a + b, 0), v);
  }

  lemma ApplyBoth(t: Tables, a: Records, b: Records, whole: Records, v: nat)
    requires whole == Cat(a, b)
    ensures Apply(Apply(t, a, v), b, v) == Apply(t, whole, v)
  {
    ApplyCat(t, a, b, v);
  }

  lemma {:induction false} RebuildConsistent(ps: Parsers, s: State, v: nat, disk: seq<Line>)
    requires Consistent(ps, s) && s.disk <= disk
    ensures Written(s.tables, Parse(ps, v, disk, 0), true, v) == Fresh(ps, v, disk)
  {
    RebuildExactUnlessMetaStale(ps, v, s.tables, disk);
    if s.row.Some? {
      var r := s.row.value;
      ParseMeta(ps, r.parser, s.disk[..r.lineCount], 0);
      assert r.lineCount > 0 ==> s.disk[..r.lineCount][0] == disk[0];
    }
  }

  /** A file that has grown past what was counted is read from there on, by the same version. */
  lemma {:induction false} SyncReadsOnlyNew(ps: Parsers, s: State, r: SyncRow, mtime: int)
    requires Consistent(ps, s) && s.row == Some(r) && Bytes(s.disk) > r.offset
    ensures DecideAction(s.row, false, r.parser, mtime, Bytes(s.disk)) == Ingest(false, r.offset, r.lineCount)
    ensures Seek(s.disk, r.offset) == s.disk[r.lineCount..]
  {
    TakeAll(s.disk, |s.disk|);
    ContinuesSeek(ps, s, r);
  }

  lemma {:induction false} ContinuesSeek(ps: Parsers, s: State, r: SyncRow)
    requires Consistent(ps, s) && s.row == Some(r)
    ensures Seek(s.disk, r.offset) == s.disk[r.lineCount..]
  {
    var a, b := s.disk[..r.lineCount], s.disk[r.lineCount..];
    assert a + b == s.disk;
    SeekPastPrefix(a, b);
  }

  /** Right after a sync of a file that nobody writes to, another one has nothing to do. */
  lemma {:induction false} SyncTwiceSkips(ps: Parsers, s: State, e: Event, again: Event)
    requires Consistent(ps, s) && e.Sync? && e.before == [] && e.after == []
    requires again == e.(full := false, mtime0 := e.mtime1)
    requires Decided(s, e).Ingest?
    ensures var s' := Step(ps, s, e); Decided(s', again) == Skip && Step(ps, s', again) == s'
  {
    assert s.disk + [] == s.disk;
  }

  function Decided(s: State, e: Event): Action
    requires e.Sync?
  {
    DecideAction(s.row, e.full, e.v, e.mtime0, Bytes(s.disk))
  }

  predicate NeverDowngraded(ps: Parsers, events: seq<Event>) {
    forall i :: 0 <= i < |events| ==> NotDowngrade(Run(ps, events[..i]), events[i])
  }

  /** Over every run of appends and syncs, whatever mix of skips, rebuilds and incremental
      steps the decisions picked, however calls and their results were split across syncs and
      however the file grew while it was read: the tables are a full rebuild of a prefix of
      the file, and after a sync of all of it. */
  lemma {:induction false} RunEqualsRebuild(ps: Parsers, events: seq<Event>)
    requires forall e <- events :: Grows(e)
    requires NeverDowngraded(ps, events)
    ensures Consistent(ps, Run(ps, events))
    ensures events != [] && events[|events| - 1].Sync? ==>
              var s := Run(ps, events); s.tables == Fresh(ps, events[|events| - 1].v, s.disk)
    decreases |events|
  {
    if events != [] {
      var before := events[..|events| - 1];
      forall i | 0 <= i < |before| ensures NotDowngrade(Run(ps, before[..i]), before[i]) {
        assert before[..i] == events[..i];
      }
      RunEqualsRebuild(ps, before);
      StepConsistent(ps, Run(ps, before), events[|events| - 1]);
    }
  }

  /** Upgrades are always safe: if versions never decrease along the run, nothing is a
      downgrade. */
  lemma {:induction false} VersionsOnlyGrow(ps: Parsers, events: seq<Event>)
    requires forall i, j :: 0 <= i < j < |events| && events[i].Sync? && events[j].Sync? ==> events[i].v <= events[j].v
    ensures NeverDowngraded(ps, events)
  {
    forall i | 0 <= i < |events| ensures NotDowngrade(Run(ps, events[..i]), events[i]) {
      RecordedVersion(ps, events, i);
    }
  }

  lemma {:induction false} RecordedVersion(ps: Parsers, events: seq<Event>, i: nat)
    requires i <= |events|
    ensures var row := Run(ps, events[..i]).row;
            row.Some? ==> exists k :: 0 <= k < i && events[k].Sync? && events[k].v == row.value.parser
    decreases i
  {
    if i > 0 {
      RecordedVersion(ps, events, i - 1);
      assert events[..i][..i - 1] == events[..i - 1];
    }
  }
}

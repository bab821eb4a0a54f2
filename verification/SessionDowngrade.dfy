/** What happens when an older parser version syncs a database that a newer one has written:
    the staleness test of `decide_action` in scripts/session-stats/sync.py only looks for older
    rows. */
module SessionDowngrade {
  import opened Common
  import opened SessionLog
  import opened SessionSync

  // ---------- What versions have in common ----------

  ghost predicate SameIds(a: seq<EditVerdict>, b: seq<EditVerdict>) {
    |a| == |b| && forall i :: 0 <= i < |a| ==> a[i].callId == b[i].callId
  }

  /** Two versions' records of the same lines differ in what they make of edits only. */
  ghost predicate Alike(a: Records, b: Records) {
    && a.meta == b.meta && a.calls == b.calls && a.results == b.results
    && a.assistant == b.assistant && a.users == b.users
    && a.stubs == b.stubs && SameIds(a.verdicts, b.verdicts)
  }

  lemma CatAlike(a: Records, b: Records, c: Records, d: Records)
    requires Alike(a, b) && Alike(c, d)
    ensures Alike(Cat(a, c), Cat(b, d))
  {
  }

  ghost predicate SameTokens(ps: Parsers, p: nat, v: nat) {
    ps(p).tokens == ps(v).tokens
  }

  lemma {:induction false} BlocksAlike(ps: Parsers, p: nat, v: nat, e: Entry, blocks: seq<Block>, seqNo: nat)
    requires SameTokens(ps, p, v)
    ensures Alike(IngestBlocks(ps, p, e, blocks, seqNo), IngestBlocks(ps, v, e, blocks, seqNo))
    decreases blocks
  {
    if blocks != [] {
      BlocksAlike(ps, p, v, e, blocks[1..], seqNo);
      match blocks[0]
      case ToolCall(id, tool, args, input) =>
        CatAlike(IngestCall(ps, p, e, id, tool, args, input, seqNo), IngestCall(ps, v, e, id, tool, args, input, seqNo),
                 IngestBlocks(ps, p, e, blocks[1..], seqNo), IngestBlocks(ps, v, e, blocks[1..], seqNo));
      case _ =>
    }
  }

  lemma MessagesAlike(p: Parser, v: Parser, e: Entry, blocks: seq<Block>, seqNo: nat)
    requires p.tokens == v.tokens
    ensures MessageRow(p, e, blocks, seqNo) == MessageRow(v, e, blocks, seqNo)
  {
  }

  lemma IngestAlike(ps: Parsers, p: nat, v: nat, c: Content, seqNo: nat)
    requires SameTokens(ps, p, v)
    ensures Alike(SessionLog.Ingest(ps, p, c, seqNo), SessionLog.Ingest(ps, v, c, seqNo))
  {
    match c
    case Assistant(e, blocks) =>
      BlocksAlike(ps, p, v, e, blocks, seqNo);
      MessagesAlike(ps(p), ps(v), e, blocks, seqNo);
      var m := MessageRow(ps(p), e, blocks, seqNo);
      CatAlike(IngestBlocks(ps, p, e, blocks, seqNo), IngestBlocks(ps, v, e, blocks, seqNo), m, m);
    case _ =>
  }

  lemma {:induction false} ParseAlike(ps: Parsers, p: nat, v: nat, lines: seq<Line>, seqNo: nat)
    requires SameTokens(ps, p, v)
    ensures Alike(Parse(ps, p, lines, seqNo), Parse(ps, v, lines, seqNo))
    decreases lines
  {
    if lines != [] {
      ParseAlike(ps, p, v, lines[1..], seqNo + 1);
      IngestAlike(ps, p, v, lines[0].content, seqNo);
      CatAlike(SessionLog.Ingest(ps, p, lines[0].content, seqNo), SessionLog.Ingest(ps, v, lines[0].content, seqNo),
               Parse(ps, p, lines[1..], seqNo + 1), Parse(ps, v, lines[1..], seqNo + 1));
    }
  }

  // ---------- Sections ----------

  ghost function KeysOf<K, V>(rows: seq<(K, V)>): set<K> {
    set r | r in rows :: r.0
  }

  lemma {:induction false} PutAllGet<K, V>(t: map<K, V>, rows: seq<(K, V)>, k: K)
    ensures k in PutAll(t, rows) <==> k in t || k in KeysOf(rows)
    ensures k !in KeysOf(rows) && k in t ==> PutAll(t, rows)[k] == t[k]
    decreases rows
  {
    if rows != [] {
      PutAllGet(t[rows[0].0 := rows[0].1], rows[1..], k);
      HeadAndTail(rows);
      assert k in KeysOf(rows) <==> k == rows[0].0 || k in KeysOf(rows[1..]);
    }
  }

  /** A row that is written is the same whatever was there. */
  lemma {:induction false} PutAllSame<K, V>(t: map<K, V>, u: map<K, V>, rows: seq<(K, V)>, k: K)
    requires k in KeysOf(rows) || (k in t && k in u && t[k] == u[k])
    ensures k in PutAll(t, rows) && k in PutAll(u, rows) && PutAll(t, rows)[k] == PutAll(u, rows)[k]
    decreases rows
  {
    if rows != [] {
      HeadAndTail(rows);
      assert k in KeysOf(rows) <==> k == rows[0].0 || k in KeysOf(rows[1..]);
      PutAllSame(t[rows[0].0 := rows[0].1], u[rows[0].0 := rows[0].1], rows[1..], k);
    }
  }

  ghost predicate SectionsBy(t: map<(string, nat), SectionRow>, v: nat) {
    forall k <- t :: t[k].parser == v
  }

  /** Writing the same rows over two versions' sections leaves the same table if and only if
      every row of either is overwritten. */
  lemma {:induction false} SectionsSameIff(t: map<(string, nat), SectionRow>, u: map<(string, nat), SectionRow>,
                                           p: nat, v: nat,
                        rows: seq<((string, nat), SectionRow)>)
    requires SectionsBy(t, p) && SectionsBy(u, v) && p != v
    ensures PutAll(t, rows) == PutAll(u, rows) <==> t.Keys + u.Keys <= KeysOf(rows)
  {
    if t.Keys + u.Keys <= KeysOf(rows) {
      forall k ensures k in PutAll(t, rows) <==> k in PutAll(u, rows) {
        PutAllGet(t, rows, k);
        PutAllGet(u, rows, k);
      }
      forall k <- PutAll(t, rows) ensures PutAll(t, rows)[k] == PutAll(u, rows)[k] {
        PutAllGet(t, rows, k);
        PutAllSame(t, u, rows, k);
      }
    } else {
      var k :| k in t.Keys + u.Keys && k !in KeysOf(rows);
      PutAllGet(t, rows, k);
      PutAllGet(u, rows, k);
    }
  }

  // ---------- Edits ----------

  function StubIds(ss: seq<EditStub>): set<string> {
    set s | s in ss :: s.callId
  }

  function VerdictIds(rs: seq<EditVerdict>): set<string> {
    set r | r in rs :: r.callId
  }

  ghost predicate SameCall(a: EditRow, b: EditRow) {
    a.seqNo == b.seqNo && a.ts == b.ts && a.inputLen == b.inputLen
  }

  ghost predicate SameVerdict(a: EditRow, b: EditRow) {
    a.success == b.success && a.warnings == b.warnings
  }

  /** The same edits, with the same columns taken from their calls. */
  ghost predicate SameCalls(t: map<string, EditRow>, u: map<string, EditRow>) {
    t.Keys == u.Keys && forall k <- t :: SameCall(t[k], u[k])
  }

  lemma {:induction false} StubsSameCalls(t: map<string, EditRow>, u: map<string, EditRow>, ss: seq<EditStub>,
                                          p: nat, v: nat)
    requires SameCalls(t, u)
    ensures SameCalls(PutStubs(t, ss, p), PutStubs(u, ss, v))
    decreases ss
  {
    if ss != [] { StubsSameCalls(PutStub(t, ss[0], p), PutStub(u, ss[0], v), ss[1..], p, v); }
  }

  lemma {:induction false} VerdictsSameCalls(t: map<string, EditRow>, u: map<string, EditRow>,
                                             rs: seq<EditVerdict>, qs: seq<EditVerdict>, p: nat, v: nat)
    requires SameCalls(t, u) && SameIds(rs, qs)
    ensures SameCalls(PutVerdicts(t, rs, p), PutVerdicts(u, qs, v))
    decreases rs
  {
    if rs != [] { VerdictsSameCalls(PutVerdict(t, rs[0], p), PutVerdict(u, qs[0], v), rs[1..], qs[1..], p, v); }
  }

  ghost predicate EditsBy(t: map<string, EditRow>, v: nat) {
    forall k <- t :: t[k].parser == v
  }

  lemma {:induction false} StubsBy(t: map<string, EditRow>, ss: seq<EditStub>, v: nat)
    requires EditsBy(t, v)
    ensures EditsBy(PutStubs(t, ss, v), v)
    decreases ss
  {
    if ss != [] { StubsBy(PutStub(t, ss[0], v), ss[1..], v); }
  }

  lemma {:induction false} VerdictsBy(t: map<string, EditRow>, rs: seq<EditVerdict>, v: nat)
    requires EditsBy(t, v)
    ensures EditsBy(PutVerdicts(t, rs, v), v)
    decreases rs
  {
    if rs != [] { VerdictsBy(PutVerdict(t, rs[0], v), rs[1..], v); }
  }

  lemma {:induction false} StubsGet(t: map<string, EditRow>, ss: seq<EditStub>, v: nat, k: string)
    ensures k in PutStubs(t, ss, v) <==> k in t || k in StubIds(ss)
    ensures k in t ==> SameVerdict(PutStubs(t, ss, v)[k], t[k])
    ensures k in t ==> PutStubs(t, ss, v)[k].parser == if k in StubIds(ss) then v else t[k].parser
    decreases ss
  {
    if ss != [] {
      StubsGet(PutStub(t, ss[0], v), ss[1..], v, k);
      HeadAndTail(ss);
      assert k in StubIds(ss) <==> k == ss[0].callId || k in StubIds(ss[1..]);
    }
  }

  lemma {:induction false} VerdictsGet(t: map<string, EditRow>, rs: seq<EditVerdict>, v: nat, k: string)
    ensures k in PutVerdicts(t, rs, v) <==> k in t || k in VerdictIds(rs)
    ensures k in t && k !in VerdictIds(rs) ==> PutVerdicts(t, rs, v)[k] == t[k]
    decreases rs
  {
    if rs != [] {
      VerdictsGet(PutVerdict(t, rs[0], v), rs[1..], v, k);
      HeadAndTail(rs);
      assert k in VerdictIds(rs) <==> k == rs[0].callId || k in VerdictIds(rs[1..]);
    }
  }

  ghost predicate SameRest(a: EditRow, b: EditRow) {
    SameVerdict(a, b) && a.parser == b.parser
  }

  /** A verdict that is written is the same whatever was there. */
  lemma {:induction false} VerdictsSame(t: map<string, EditRow>, u: map<string, EditRow>, rs: seq<EditVerdict>,
                                        v: nat, k: string)
    requires k in VerdictIds(rs) || (k in t && k in u && SameRest(t[k], u[k]))
    ensures k in PutVerdicts(t, rs, v) && k in PutVerdicts(u, rs, v)
    ensures SameRest(PutVerdicts(t, rs, v)[k], PutVerdicts(u, rs, v)[k])
    decreases rs
  {
    if rs != [] {
      HeadAndTail(rs);
      assert k in VerdictIds(rs) <==> k == rs[0].callId || k in VerdictIds(rs[1..]);
      VerdictsSame(PutVerdict(t, rs[0], v), PutVerdict(u, rs[0], v), rs[1..], v, k);
    }
  }

  function PutEdits(t: map<string, EditRow>, ss: seq<EditStub>, rs: seq<EditVerdict>, v: nat): map<string, EditRow> {
    PutVerdicts(PutStubs(t, ss, v), rs, v)
  }

  /** An edit comes out the same: its verdict is written anew, or its call is and both versions
      had come to the same verdict. */
  ghost predicate Renewed(t: map<string, EditRow>, u: map<string, EditRow>, ss: seq<EditStub>,
                          rs: seq<EditVerdict>, k: string) {
    k in VerdictIds(rs) || (k in StubIds(ss) && k in t && k in u && SameVerdict(t[k], u[k]))
  }

  lemma EditSameIff(t: map<string, EditRow>, u: map<string, EditRow>, p: nat, v: nat,
                    ss: seq<EditStub>, rs: seq<EditVerdict>, k: string)
    requires EditsBy(t, p) && EditsBy(u, v) && p != v && k in t && k in u
    ensures k in PutEdits(t, ss, rs, v) && k in PutEdits(u, ss, rs, v)
    ensures SameRest(PutEdits(t, ss, rs, v)[k], PutEdits(u, ss, rs, v)[k]) <==> Renewed(t, u, ss, rs, k)
  {
    var t1, u1 := PutStubs(t, ss, v), PutStubs(u, ss, v);
    StubsGet(t, ss, v, k);
    StubsGet(u, ss, v, k);
    VerdictsGet(t1, rs, v, k);
    VerdictsGet(u1, rs, v, k);
    if Renewed(t, u, ss, rs, k) { VerdictsSame(t1, u1, rs, v, k); }
  }

  lemma NewEditSame(t: map<string, EditRow>, u: map<string, EditRow>, ss: seq<EditStub>, rs: seq<EditVerdict>,
                    v: nat, k: string)
    requires t.Keys == u.Keys && k !in t && k in PutEdits(t, ss, rs, v)
    ensures k in PutEdits(u, ss, rs, v) && SameRest(PutEdits(t, ss, rs, v)[k], PutEdits(u, ss, rs, v)[k])
  {
    StubsGet(t, ss, v, k);
    StubsGet(u, ss, v, k);
    VerdictsGet(PutStubs(t, ss, v), rs, v, k);
    if k !in VerdictIds(rs) { NewStubSame(t, u, ss, v, k); }
    VerdictsSame(PutStubs(t, ss, v), PutStubs(u, ss, v), rs, v, k);
  }

  lemma {:induction false} NewStubSame(t: map<string, EditRow>, u: map<string, EditRow>, ss: seq<EditStub>, v: nat,
                                       k: string)
    requires k in StubIds(ss) && (k in t <==> k in u)
    requires k in t ==> SameRest(t[k], u[k])
    ensures k in PutStubs(t, ss, v) && k in PutStubs(u, ss, v) && SameRest(PutStubs(t, ss, v)[k], PutStubs(u, ss, v)[k])
    decreases ss
  {
    HeadAndTail(ss);
    assert k in StubIds(ss) <==> k == ss[0].callId || k in StubIds(ss[1..]);
    var t1, u1 := PutStub(t, ss[0], v), PutStub(u, ss[0], v);
    if k in StubIds(ss[1..]) {
      NewStubSame(t1, u1, ss[1..], v, k);
    } else {
      StubsGet(t1, ss[1..], v, k);
      StubsGet(u1, ss[1..], v, k);
    }
  }

  lemma EditsSameIff(t: map<string, EditRow>, u: map<string, EditRow>, p: nat, v: nat, ss: seq<EditStub>,
                     rs: seq<EditVerdict>)
    requires SameCalls(t, u) && EditsBy(t, p) && EditsBy(u, v) && p != v
    ensures PutEdits(t, ss, rs, v) == PutEdits(u, ss, rs, v) <==> forall k <- t :: Renewed(t, u, ss, rs, k)
  {
    var a, b := PutEdits(t, ss, rs, v), PutEdits(u, ss, rs, v);
    StubsSameCalls(t, u, ss, v, v);
    VerdictsSameCalls(PutStubs(t, ss, v), PutStubs(u, ss, v), rs, rs, v, v);
    if forall k <- t :: Renewed(t, u, ss, rs, k) {
      forall k <- a ensures a[k] == b[k] {
        if k in t { EditSameIff(t, u, p, v, ss, rs, k); } else { NewEditSame(t, u, ss, rs, v, k); }
      }
    }
    if a == b {
      forall k <- t ensures Renewed(t, u, ss, rs, k) { EditSameIff(t, u, p, v, ss, rs, k); }
    }
  }

  // ---------- When a downgrade is exact ----------

  /** Two tables that differ in edits and sections only. */
  ghost predicate SamePlain(a: Tables, b: Tables) {
    && a.meta == b.meta && a.calls == b.calls && a.results == b.results
    && a.assistant == b.assistant && a.users == b.users
  }

  lemma {:induction false} SectionsPut(t: map<(string, nat), SectionRow>, rows: seq<((string, nat), SectionRow)>,
                                       v: nat)
    requires SectionsBy(t, v) && forall r <- rows :: r.1.parser == v
    ensures SectionsBy(PutAll(t, rows), v)
    decreases rows
  {
    if rows != [] {
      HeadAndTail(rows);
      SectionsPut(t[rows[0].0 := rows[0].1], rows[1..], v);
    }
  }

  ghost predicate SectionRowsBy(rows: seq<((string, nat), SectionRow)>, v: nat) {
    forall r <- rows :: r.1.parser == v
  }

  lemma CatRowsBy(a: Records, b: Records, v: nat)
    requires SectionRowsBy(a.sections, v) && SectionRowsBy(b.sections, v)
    ensures SectionRowsBy(Cat(a, b).sections, v)
  {
  }

  lemma {:induction false} BlocksBy(ps: Parsers, v: nat, e: Entry, blocks: seq<Block>, seqNo: nat)
    ensures SectionRowsBy(IngestBlocks(ps, v, e, blocks, seqNo).sections, v)
    decreases blocks
  {
    if blocks != [] {
      BlocksBy(ps, v, e, blocks[1..], seqNo);
      match blocks[0]
      case ToolCall(id, tool, args, input) =>
        CatRowsBy(IngestCall(ps, v, e, id, tool, args, input, seqNo), IngestBlocks(ps, v, e, blocks[1..], seqNo), v);
      case _ =>
    }
  }

  lemma IngestBy(ps: Parsers, v: nat, c: Content, seqNo: nat)
    ensures SectionRowsBy(SessionLog.Ingest(ps, v, c, seqNo).sections, v)
  {
    match c
    case Assistant(e, blocks) =>
      BlocksBy(ps, v, e, blocks, seqNo);
      CatRowsBy(IngestBlocks(ps, v, e, blocks, seqNo), MessageRow(ps(v), e, blocks, seqNo), v);
    case _ =>
  }

  lemma {:induction false} ParseBy(ps: Parsers, v: nat, lines: seq<Line>, seqNo: nat)
    ensures SectionRowsBy(Parse(ps, v, lines, seqNo).sections, v)
    decreases lines
  {
    if lines != [] {
      ParseBy(ps, v, lines[1..], seqNo + 1);
      IngestBy(ps, v, lines[0].content, seqNo);
      CatRowsBy(SessionLog.Ingest(ps, v, lines[0].content, seqNo), Parse(ps, v, lines[1..], seqNo + 1), v);
    }
  }

  /** Two versions' rebuilds of the same lines. */
  lemma FreshAlike(ps: Parsers, p: nat, v: nat, lines: seq<Line>)
    requires SameTokens(ps, p, v)
    ensures var t, u := Fresh(ps, p, lines), Fresh(ps, v, lines);
            && SamePlain(t, u) && SectionsBy(t.sections, p) && SectionsBy(u.sections, v)
            && SameCalls(t.edits, u.edits) && EditsBy(t.edits, p) && EditsBy(u.edits, v)
  {
    var a, b := Parse(ps, p, lines, 0), Parse(ps, v, lines, 0);
    ParseAlike(ps, p, v, lines, 0);
    ParseBy(ps, p, lines, 0);
    ParseBy(ps, v, lines, 0);
    SectionsPut(map[], a.sections, p);
    SectionsPut(map[], b.sections, v);
    StubsSameCalls(map[], map[], a.stubs, p, v);
    VerdictsSameCalls(PutStubs(map[], a.stubs, p), PutStubs(map[], b.stubs, v), a.verdicts, b.verdicts, p, v);
    StubsBy(map[], a.stubs, p);
    VerdictsBy(PutStubs(map[], a.stubs, p), a.verdicts, p);
    StubsBy(map[], b.stubs, v);
    VerdictsBy(PutStubs(map[], b.stubs, v), b.verdicts, v);
  }

  /** Of the rows that the counted lines `a` left, whichever version read them, the new lines `b`
      write each one anew: every section, and every edit by its verdict, or by its call where
      both versions had come to the same verdict. */
  ghost predicate AllRenewed(ps: Parsers, p: nat, v: nat, a: seq<Line>, b: seq<Line>) {
    var t, u, r := Fresh(ps, p, a), Fresh(ps, v, a), Parse(ps, v, b, |a|);
    && t.sections.Keys + u.sections.Keys <= KeysOf(r.sections)
    && forall k <- t.edits :: Renewed(t.edits, u.edits, r.stubs, r.verdicts, k)
  }

  lemma AppliedSameIff(t: Tables, u: Tables, r: Records, p: nat, v: nat)
    requires SamePlain(t, u) && SectionsBy(t.sections, p) && SectionsBy(u.sections, v)
    requires SameCalls(t.edits, u.edits) && EditsBy(t.edits, p) && EditsBy(u.edits, v) && p != v
    ensures Apply(t, r, v) == Apply(u, r, v)
       <==> t.sections.Keys + u.sections.Keys <= KeysOf(r.sections)
            && forall k <- t.edits :: Renewed(t.edits, u.edits, r.stubs, r.verdicts, k)
  {
    SectionsSameIff(t.sections, u.sections, p, v, r.sections);
    EditsSameIff(t.edits, u.edits, p, v, r.stubs, r.verdicts);
  }

  /** Continuing another version's tables is what one rebuild would give if and only if all they
      hold of edits is written anew. */
  lemma {:induction false} ContinuedExactIff(ps: Parsers, p: nat, v: nat, a: seq<Line>, b: seq<Line>)
    requires SameTokens(ps, p, v) && p != v
    ensures Apply(Fresh(ps, p, a), Parse(ps, v, b, |a|), v) == Fresh(ps, v, a + b)
       <==> AllRenewed(ps, p, v, a, b)
  {
    FreshAppend(ps, v, a, b);
    FreshAlike(ps, p, v, a);
    AppliedSameIff(Fresh(ps, p, a), Fresh(ps, v, a), Parse(ps, v, b, |a|), p, v);
  }

  lemma ApplyNothing(t: Tables, v: nat)
    ensures Apply(t, NO_RECORDS, v) == t
  {
  }

  lemma SkipExactIff(ps: Parsers, s: State, v: nat)
    requires Consistent(ps, s) && s.row.Some? && s.row.value.lineCount == |s.disk|
    requires s.row.value.parser != v && SameTokens(ps, s.row.value.parser, v)
    ensures s.tables == Fresh(ps, v, s.disk) <==> AllRenewed(ps, s.row.value.parser, v, s.disk, [])
  {
    assert s.disk[..|s.disk|] == s.disk && s.disk + [] == s.disk;
    ContinuedExactIff(ps, s.row.value.parser, v, s.disk, []);
    ApplyNothing(s.tables, v);
  }

  /** A sync by an older version, of a database that is a rebuild by a newer one, leaves what a
      rebuild by the older one would if and only if the decision is to rebuild, or the lines not
      yet counted write anew everything that the newer version holds of edits. */
  lemma DowngradeExactIff(ps: Parsers, s: State, e: Event)
    requires Consistent(ps, s) && e.Sync? && Grows(e) && s.row.Some? && e.v < s.row.value.parser
    requires SameTokens(ps, s.row.value.parser, e.v)
    ensures var s', n := Step(ps, s, e), s.row.value.lineCount;
            s.disk <= s'.disk
            && (s'.tables == Fresh(ps, e.v, s'.disk)
                <==> (Decided(s, e).Ingest? && Decided(s, e).rebuild)
                     || AllRenewed(ps, s.row.value.parser, e.v, s'.disk[..n], s'.disk[n..]))
  {
    var r := s.row.value;
    match Decided(s, e)
    case Skip =>
      SkipMeansUnchanged(s, r);
      SkipExactIff(ps, s, e.v);
      assert s.disk[|s.disk|..] == [];
    case Ingest(rebuild, offset, seqNo) =>
      var disk := s.disk + e.before + e.after;
      if rebuild {
        RebuildConsistent(ps, s, e.v, disk);
        assert Seek(disk, 0) == disk;
      } else {
        ContinuesParse(ps, s, e.v, disk);
        ContinuedIs(ps, s, e.v, disk);
      }
  }

  /** A sync that continues an older count of lines, over the newer version's rows. */
  lemma {:induction false} ContinuedIs(ps: Parsers, s: State, v: nat, disk: seq<Line>)
    requires Consistent(ps, s) && s.row.Some? && s.disk <= disk && v != s.row.value.parser
    requires SameTokens(ps, s.row.value.parser, v)
    ensures var r := s.row.value;
            Written(s.tables, Parse(ps, v, disk[r.lineCount..], r.lineCount), false, v) == Fresh(ps, v, disk)
            <==> AllRenewed(ps, r.parser, v, disk[..r.lineCount], disk[r.lineCount..])
  {
    var r := s.row.value;
    WrittenIncrement(s.tables, Parse(ps, v, disk[r.lineCount..], r.lineCount), v);
    TakeLess(s.disk, disk, r.lineCount);
    ContinuedExactIff(ps, r.parser, v, disk[..r.lineCount], disk[r.lineCount..]);
  }

  lemma TakeLess(a: seq<Line>, d: seq<Line>, n: nat)
    requires n <= |a| && a <= d
    ensures d[..n] == a[..n] && d[..n] + d[n..] == d
  {
  }

  // ---------- A history that goes wrong ----------

  const EDIT_LINE := Line(1, Assistant(Entry("", 0), [ToolCall("a", "edit", "x", "x")]))
  const OTHER_LINE := Line(1, Ignored)

  /** Version 2 of the edit parser reads one section, version 1 another. */
  function TwoVersions(v: nat): Parser {
    Parser(_ => [if v >= 2 then "new" else "old"], _ => true, _ => [], _ => 0)
  }

  lemma {:induction false} EditLineRecords(v: nat)
    ensures Parse(TwoVersions, v, [EDIT_LINE], 0).stubs == [EditStub("a", 0, 0, 1)]
    ensures Parse(TwoVersions, v, [EDIT_LINE], 0).verdicts == []
  {
    var blocks := [ToolCall("a", "edit", "x", "x")];
    assert blocks[1..] == [] && [EDIT_LINE][1..] == [];
    assert IngestBlocks(TwoVersions, v, Entry("", 0), blocks, 0).stubs == [EditStub("a", 0, 0, 1)];
    assert IngestBlocks(TwoVersions, v, Entry("", 0), blocks, 0).verdicts == [];
  }

  lemma EditIsThere(v: nat)
    ensures "a" in Fresh(TwoVersions, v, [EDIT_LINE]).edits
  {
    var stubs := [EditStub("a", 0, 0, 1)];
    EditLineRecords(v);
    assert stubs[0] in stubs && "a" in StubIds(stubs);
    StubsGet(map[], stubs, v, "a");
    VerdictsGet(PutStubs(map[], stubs, v), [], v, "a");
  }

  lemma {:induction false} OtherLineRecords(v: nat)
    ensures Parse(TwoVersions, v, [OTHER_LINE], 1) == NO_RECORDS
  {
    assert [OTHER_LINE][1..] == [];
    CatAssociates(NO_RECORDS, NO_RECORDS, NO_RECORDS);
  }

  /** The edit is not written anew by a line that has nothing to do with edits. */
  lemma NotRenewed()
    ensures !AllRenewed(TwoVersions, 2, 1, [EDIT_LINE], [OTHER_LINE])
  {
    EditIsThere(2);
    OtherLineRecords(1);
    var t, u := Fresh(TwoVersions, 2, [EDIT_LINE]).edits, Fresh(TwoVersions, 1, [EDIT_LINE]).edits;
    assert !Renewed(t, u, [], [], "a");
  }

  const FIRST: Event := Append([EDIT_LINE])
  const BY_NEW: Event := Sync(false, 2, 0, [], 0, [])
  const SECOND: Event := Append([OTHER_LINE])
  const BY_OLD: Event := Sync(false, 1, 0, [], 0, [])

  lemma {:induction false} RunOnce(ps: Parsers, events: seq<Event>, e: Event)
    ensures Run(ps, events + [e]) == Step(ps, Run(ps, events), e)
  {
    MoreInit(events, e);
  }

  lemma EditLineBytes()
    ensures Bytes([EDIT_LINE]) == 1 && Bytes([EDIT_LINE, OTHER_LINE]) == 2
  {
    assert [EDIT_LINE][1..] == [] && [OTHER_LINE][1..] == [] && [EDIT_LINE, OTHER_LINE][1..] == [OTHER_LINE];
  }

  /** An edit is appended and synced by version 2. */
  lemma AfterSync()
    ensures var s := Run(TwoVersions, [FIRST, BY_NEW]);
            Consistent(TwoVersions, s) && s.disk == [EDIT_LINE] && s.row == Some(SyncRow(0, 1, 1, 1, 2))
  {
    RunOnce(TwoVersions, [], FIRST);
    RunOnce(TwoVersions, [FIRST], BY_NEW);
    assert [] + [FIRST] == [FIRST] && [FIRST] + [BY_NEW] == [FIRST, BY_NEW];
    var s := Run(TwoVersions, [FIRST]);
    assert s.disk == [EDIT_LINE] by { assert [] + [EDIT_LINE] == [EDIT_LINE]; }
    EditLineBytes();
    assert s.disk + [] + [] == s.disk && s.disk + [] == s.disk;
    AppendConsistent(TwoVersions, START, FIRST);
    StepConsistent(TwoVersions, s, BY_NEW);
  }

  /** Another line is appended. */
  lemma AfterSecond()
    ensures var s := Run(TwoVersions, [FIRST, BY_NEW, SECOND]);
            Consistent(TwoVersions, s) && s.disk == [EDIT_LINE, OTHER_LINE] && s.row == Some(SyncRow(0, 1, 1, 1, 2))
  {
    AfterSync();
    RunOnce(TwoVersions, [FIRST, BY_NEW], SECOND);
    assert [FIRST, BY_NEW] + [SECOND] == [FIRST, BY_NEW, SECOND];
    SecondAppended(Run(TwoVersions, [FIRST, BY_NEW]));
  }

  lemma SecondAppended(s: State)
    requires Consistent(TwoVersions, s) && s.disk == [EDIT_LINE]
    ensures var s' := Step(TwoVersions, s, SECOND);
            Consistent(TwoVersions, s') && s'.disk == [EDIT_LINE, OTHER_LINE] && s'.row == s.row
  {
    AppendConsistent(TwoVersions, s, SECOND);
    assert [EDIT_LINE] + [OTHER_LINE] == [EDIT_LINE, OTHER_LINE];
  }

  /** Then version 1 syncs: it continues the newer rows, and the tables are not what it would
      build. */
  lemma DowngradeMixesVersions()
    ensures var s := Run(TwoVersions, [FIRST, BY_NEW, SECOND, BY_OLD]);
            s.tables != Fresh(TwoVersions, 1, s.disk)
  {
    var s := Run(TwoVersions, [FIRST, BY_NEW, SECOND]);
    AfterSecond();
    RunOnce(TwoVersions, [FIRST, BY_NEW, SECOND], BY_OLD);
    assert [FIRST, BY_NEW, SECOND] + [BY_OLD] == [FIRST, BY_NEW, SECOND, BY_OLD];
    EditLineBytes();
    assert Decided(s, BY_OLD) == Action.Ingest(false, 1, 1);
    SameDisk(s);
    DowngradeExactIff(TwoVersions, s, BY_OLD);
    NotRenewed();
  }

  lemma SameDisk(s: State)
    requires s.disk == [EDIT_LINE, OTHER_LINE] && s.row == Some(SyncRow(0, 1, 1, 1, 2))
    ensures var s' := Step(TwoVersions, s, BY_OLD);
            s'.disk == s.disk && s'.disk[..1] == [EDIT_LINE] && s'.disk[1..] == [OTHER_LINE]
  {
    EditLineBytes();
    assert s.disk + [] + [] == s.disk;
  }
}

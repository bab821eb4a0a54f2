/** What a session's tool results cost as later requests carry them along, and which were the
    largest: `scanFile` of scripts/session-stats/audit.ts. */
module SessionAudit {
  import opened Common
  import opened StableSort

  datatype Call = Call(id: string, name: string)

  datatype Entry =
    | Request(calls: seq<Call>)
    | Result(callId: string, toolName: string, toks: nat)

  datatype Issued = Issued(name: string, request: nat)

  /** One result: the tool, its size, and the number of the request that issued it. */
  datatype Row = Row(tool: string, toks: nat, request: nat)

  // ---------- Reading a session ----------

  function Requests(es: seq<Entry>): (n: nat)
    ensures n <= |es|
  {
    if es == [] then 0 else Requests(es[..|es| - 1]) + if es[|es| - 1].Request? then 1 else 0
  }

  function Note(pending: map<string, Issued>, calls: seq<Call>, request: nat): map<string, Issued> {
    if calls == [] then pending
    else
      var c := calls[|calls| - 1];
      Note(pending, calls[..|calls| - 1], request)[c.id := Issued(c.name, request)]
  }

  /** The calls not answered yet. */
  function Pending(es: seq<Entry>): map<string, Issued> {
    if es == [] then map[]
    else
      PendingThen(Pending(es[..|es| - 1]), es[|es| - 1], Requests(es))
  }

  function PendingThen(before: map<string, Issued>, e: Entry, request: nat): map<string, Issued> {
    match e
    case Request(calls) => Note(before, calls, request)
    case Result(id, _, _) => before - {id}
  }

  /** A result belongs to the call it answers; one that answers no known call, to its own tool
      name and the latest request. */
  function RowOf(es: seq<Entry>, id: string, toolName: string, toks: nat): Row {
    var pending := Pending(es);
    if id in pending then Row(pending[id].name, toks, pending[id].request) else Row(toolName, toks, Requests(es))
  }

  function Rows(es: seq<Entry>): seq<Row> {
    if es == [] then []
    else
      var k := |es| - 1;
      Rows(es[..k]) + NewRows(es[..k], es[k])
  }

  function NewRows(es: seq<Entry>, e: Entry): seq<Row> {
    match e
    case Request(_) => []
    case Result(id, name, toks) => [RowOf(es, id, name, toks)]
  }

  predicate PendingUpTo(pending: map<string, Issued>, n: nat) {
    forall id <- pending :: pending[id].request <= n
  }

  lemma {:induction false} NoteUpTo(pending: map<string, Issued>, calls: seq<Call>, n: nat)
    requires PendingUpTo(pending, n)
    ensures PendingUpTo(Note(pending, calls, n), n)
    decreases calls
  {
    if calls != [] { NoteUpTo(pending, calls[..|calls| - 1], n); }
  }

  predicate UpTo(rows: seq<Row>, n: nat) {
    forall i :: 0 <= i < |rows| ==> rows[i].request <= n
  }

  /** No result is issued by a request yet to come. */
  lemma {:induction false} IssuedBefore(es: seq<Entry>)
    ensures PendingUpTo(Pending(es), Requests(es)) && UpTo(Rows(es), Requests(es))
    decreases es
  {
    if es != [] {
      IssuedBefore(es[..|es| - 1]);
      match es[|es| - 1]
      case Request(calls) => NoteUpTo(Pending(es[..|es| - 1]), calls, Requests(es));
      case Result(_, _, _) =>
    }
  }

  // ---------- Residency ----------

  function Later(row: Row, n: nat): nat {
    if n >= row.request then n - row.request else 0
  }

  /** The source's sum: each result of a tool, times the requests after the one that issued it. */
  function Weighted(rows: seq<Row>, tool: string, n: nat): nat {
    if rows == [] then 0
    else
      var r := rows[|rows| - 1];
      Weighted(rows[..|rows| - 1], tool, n) + if r.tool == tool then r.toks * Later(r, n) else 0
  }

  /** What request `k` carries of a tool's results: those that earlier requests issued. */
  function Carried(rows: seq<Row>, tool: string, k: nat): nat {
    if rows == [] then 0
    else
      var r := rows[|rows| - 1];
      Carried(rows[..|rows| - 1], tool, k) + if r.tool == tool && r.request < k then r.toks else 0
  }

  function CarriedByAll(rows: seq<Row>, tool: string, n: nat): nat {
    if n == 0 then 0 else CarriedByAll(rows, tool, n - 1) + Carried(rows, tool, n)
  }

  function OneCarried(r: Row, tool: string, n: nat): nat {
    if r.tool == tool then r.toks * Later(r, n) else 0
  }

  lemma OneStep(r: Row, tool: string, n: nat)
    requires n > 0
    ensures OneCarried(r, tool, n) == OneCarried(r, tool, n - 1) + if r.tool == tool && r.request < n then r.toks else 0
  {
    if r.request < n { assert r.toks * Later(r, n) == r.toks * Later(r, n - 1) + r.toks; }
  }

  lemma {:induction false} CarriedLast(rows: seq<Row>, r: Row, tool: string, k: nat)
    ensures Carried(rows + [r], tool, k)
         == Carried(rows, tool, k) + if r.tool == tool && r.request < k then r.toks else 0
  {
    MoreInit(rows, r);
  }

  lemma {:induction false} CarryOneMore(rows: seq<Row>, r: Row, tool: string, n: nat)
    ensures CarriedByAll(rows + [r], tool, n) == CarriedByAll(rows, tool, n) + OneCarried(r, tool, n)
    decreases n
  {
    if n > 0 {
      CarryOneMore(rows, r, tool, n - 1);
      CarriedLast(rows, r, tool, n);
      OneStep(r, tool, n);
    }
  }

  /** The weighted sum is what all requests together carry. */
  lemma {:induction false} ResidencyIsCarried(rows: seq<Row>, tool: string, n: nat)
    ensures Weighted(rows, tool, n) == CarriedByAll(rows, tool, n)
    decreases rows
  {
    if rows == [] {
      NothingCarried(tool, n);
    } else {
      var k := |rows| - 1;
      ResidencyIsCarried(rows[..k], tool, n);
      CarryOneMore(rows[..k], rows[k], tool, n);
      InitAndLast(rows);
    }
  }

  lemma {:induction false} NothingCarried(tool: string, n: nat)
    ensures CarriedByAll([], tool, n) == 0
    decreases n
  {
    if n > 0 { NothingCarried(tool, n - 1); }
  }

  // ---------- The largest results ----------

  datatype Top = Top(tool: string, toks: nat)

  predicate Larger(a: Top, b: Top) {
    a.toks >= b.toks
  }

  /** Largest first, and of the same size in the order they came. */
  function SortDown(s: seq<Top>): seq<Top> {
    Sort(s, Larger)
  }

  function Take(s: seq<Top>, k: nat): seq<Top> {
    if |s| <= k then s else s[..k]
  }

  lemma {:induction false} TakePlace(x: Top, s: seq<Top>, k: nat)
    ensures Take(Place(x, Take(s, k), Larger), k) == Take(Place(x, s, Larger), k)
    decreases s
  {
    if k > 0 && s != [] && s[0].toks >= x.toks {
      TakePlace(x, s[1..], k - 1);
      var short := Take(s, k);
      assert short[0] == s[0] && short[1..] == Take(s[1..], k - 1);
      TakeHead(s[0], Place(x, short[1..], Larger), k);
      TakeHead(s[0], Place(x, s[1..], Larger), k);
    } else if k == 0 || |s| <= k {
    } else {
      assert Take(s, k)[0] == s[0];
      assert ([x] + s)[..k] == [x] + s[..k - 1];
      assert ([x] + s[..k])[..k] == [x] + s[..k - 1];
    }
  }

  lemma TakeHead(h: Top, s: seq<Top>, k: nat)
    requires k > 0
    ensures Take([h] + s, k) == [h] + Take(s, k - 1)
  {
  }

  lemma {:induction false} SortDownMore(s: seq<Top>, x: Top)
    ensures SortDown(s + [x]) == Place(x, SortDown(s), Larger)
  {
    MoreInit(s, x);
  }

  ghost predicate SameTop(a: seq<Top>, b: seq<Top>, k: nat) {
    Take(SortDown(a), k) == Take(SortDown(b), k)
  }

  lemma TrimStep(a: seq<Top>, b: seq<Top>, x: Top, k: nat)
    requires SameTop(a, b, k)
    ensures SameTop(a + [x], b + [x], k)
  {
    SortDownMore(a, x);
    SortDownMore(b, x);
    TakePlace(x, SortDown(a), k);
    TakePlace(x, SortDown(b), k);
  }

  lemma TrimNothing(a: seq<Top>, k: nat)
    ensures SameTop(Take(SortDown(a), k), a, k)
  {
    SortSorts(a, Larger);
    TakeFalls(SortDown(a), k);
    SortKeeps(Take(SortDown(a), k), Larger);
  }

  lemma {:induction false} SameTopMore(a: seq<Top>, b: seq<Top>, more: seq<Top>, k: nat)
    requires SameTop(a, b, k)
    ensures SameTop(a + more, b + more, k)
    decreases more
  {
    if more == [] {
      assert a + more == a && b + more == b;
    } else {
      var n := |more| - 1;
      SameTopMore(a, b, more[..n], k);
      TrimStep(a + more[..n], b + more[..n], more[n], k);
      assert a + more[..n] + [more[n]] == a + more;
      assert b + more[..n] + [more[n]] == b + more;
    }
  }

  /** Trimming on the way does not change what is on top in the end, ties included. */
  lemma TrimEarly(a: seq<Top>, b: seq<Top>, k: nat)
    ensures Take(SortDown(Take(SortDown(a), k) + b), k) == Take(SortDown(a + b), k)
  {
    TrimNothing(a, k);
    SameTopMore(Take(SortDown(a), k), a, b, k);
  }

  lemma TakeFalls(s: seq<Top>, k: nat)
    requires Falls(s, Larger)
    ensures Falls(Take(s, k), Larger)
  {
  }

  /** What is left out of the first `k` is no larger than anything in them. */
  lemma TopIsLargest(all: seq<Top>, k: nat, i: nat, j: nat)
    requires i < |Take(SortDown(all), k)| && k <= j < |SortDown(all)|
    ensures Take(SortDown(all), k)[i].toks >= SortDown(all)[j].toks
  {
    SortSorts(all, Larger);
    FallsAll(SortDown(all), Larger, i, j);
  }

  const LARGE := 2000
  const SHOWN := 12
  const SLACK := 24

  function LargeResults(rows: seq<Row>): seq<Top> {
    if rows == [] then []
    else
      var r := rows[|rows| - 1];
      LargeResults(rows[..|rows| - 1]) + if r.toks > LARGE then [Top(r.tool, r.toks)] else []
  }

  /** The large results are the rows of more than 2000 tokens, in order. */
  ghost predicate LargeAt(rows: seq<Row>, large: seq<Top>, at: seq<nat>) {
    && |at| == |large| && (forall a, b :: 0 <= a < b < |at| ==> at[a] < at[b])
    && (forall i: nat :: i in at <==> i < |rows| && rows[i].toks > 2000)
    && forall a :: 0 <= a < |at| ==> at[a] < |rows| && large[a] == Top(rows[at[a]].tool, rows[at[a]].toks)
  }

  lemma OnePlaceMore(at: seq<nat>, k: nat)
    requires (forall a, b :: 0 <= a < b < |at| ==> at[a] < at[b]) && forall i: nat :: i in at ==> i < k
    ensures forall a, b :: 0 <= a < b <= |at| ==> (at + [k])[a] < (at + [k])[b]
    ensures forall i: nat :: i in at + [k] <==> i in at || i == k
  {
    forall a | 0 <= a < |at| ensures at[a] < k { assert at[a] in at; }
  }

  lemma LargeStep(rows: seq<Row>, r: Row, large: seq<Top>, at: seq<nat>)
    requires LargeAt(rows, large, at)
    ensures if r.toks > 2000 then LargeAt(rows + [r], large + [Top(r.tool, r.toks)], at + [|rows|])
            else LargeAt(rows + [r], large, at)
  {
    OnePlaceMore(at, |rows|);
  }

  lemma {:induction false} LargeAre(rows: seq<Row>) returns (at: seq<nat>)
    ensures LargeAt(rows, LargeResults(rows), at)
    decreases rows
  {
    at := [];
    if rows != [] {
      var init, r := rows[..|rows| - 1], rows[|rows| - 1];
      at := LargeAre(init);
      InitAndLast(rows);
      LargeMore(init, r);
      LargeStep(init, r, LargeResults(init), at);
      if r.toks > LARGE { at := at + [|init|]; }
    }
  }

  // ---------- The scan ----------

  method Push(top0: seq<Top>, x: Top, ghost all: seq<Top>) returns (top: seq<Top>)
    requires SameTop(top0, all, SHOWN) && |top0| <= SLACK
    ensures SameTop(top, all + [x], SHOWN) && |top| <= SLACK
  {
    TrimStep(top0, all, x, SHOWN);
    top := top0 + [x];
    if |top| > SLACK {
      TrimNothing(top, SHOWN);
      top := Take(SortDown(top), SHOWN);
    }
  }

  lemma {:induction false} RowsMore(es: seq<Entry>, e: Entry)
    ensures Requests(es + [e]) == Requests(es) + if e.Request? then 1 else 0
    ensures Rows(es + [e]) == Rows(es) + NewRows(es, e)
    ensures Pending(es + [e]) == PendingThen(Pending(es), e, Requests(es + [e]))
  {
    MoreInit(es, e);
  }

  lemma {:induction false} LargeMore(rows: seq<Row>, r: Row)
    ensures LargeResults(rows + [r])
         == if r.toks > LARGE then LargeResults(rows) + [Top(r.tool, r.toks)] else LargeResults(rows)
  {
    MoreInit(rows, r);
  }

  method AddResult(rows0: seq<Row>, top0: seq<Top>, row: Row) returns (rows: seq<Row>, top: seq<Top>)
    requires SameTop(top0, LargeResults(rows0), SHOWN) && |top0| <= SLACK
    ensures rows == rows0 + [row] && SameTop(top, LargeResults(rows), SHOWN) && |top| <= SLACK
  {
    LargeMore(rows0, row);
    rows, top := rows0 + [row], top0;
    if row.toks > LARGE { top := Push(top0, Top(row.tool, row.toks), LargeResults(rows0)); }
  }

  datatype Scan = Scan(rows: seq<Row>, requests: nat, pending: map<string, Issued>, top: seq<Top>)

  ghost predicate ScanOf(s: Scan, es: seq<Entry>) {
    && s.rows == Rows(es) && s.requests == Requests(es) && s.pending == Pending(es)
    && SameTop(s.top, LargeResults(s.rows), SHOWN) && |s.top| <= SLACK
  }

  method ReadEntry(s: Scan, e: Entry, ghost es: seq<Entry>) returns (t: Scan)
    requires ScanOf(s, es)
    ensures ScanOf(t, es + [e])
  {
    RowsMore(es, e);
    match e
    case Request(calls) =>
      var pending := NoteAll(s.pending, calls, s.requests + 1);
      assert s.rows + [] == s.rows;
      t := Scan(s.rows, s.requests + 1, pending, s.top);
    case Result(id, name, toks) =>
      var row := if id in s.pending then Row(s.pending[id].name, toks, s.pending[id].request)
                 else Row(name, toks, s.requests);
      var rows, top := AddResult(s.rows, s.top, row);
      t := Scan(rows, s.requests, s.pending - {id}, top);
  }

  method ReadEntries(es: seq<Entry>) returns (s: Scan)
    ensures ScanOf(s, es)
  {
    s := Scan([], 0, map[], []);
    var i := 0;
    while i < |es|
      invariant 0 <= i <= |es| && ScanOf(s, es[..i])
    {
      s := ReadEntry(s, es[i], es[..i]);
      TakeMore(es, i);
      i := i + 1;
    }
    TakeAll(es, i);
  }

  method NoteAll(pending0: map<string, Issued>, calls: seq<Call>, request: nat) returns (pending: map<string, Issued>)
    ensures pending == Note(pending0, calls, request)
  {
    pending := pending0;
    var i := 0;
    while i < |calls|
      invariant 0 <= i <= |calls| && pending == Note(pending0, calls[..i], request)
    {
      TakeMore(calls, i);
      pending := pending[calls[i].id := Issued(calls[i].name, request)];
      i := i + 1;
    }
    TakeAll(calls, i);
  }

  function Tools(rows: seq<Row>): set<string> {
    set i | 0 <= i < |rows| :: rows[i].tool
  }

  lemma {:induction false} WeightedMore(rows: seq<Row>, r: Row, tool: string, n: nat)
    ensures Weighted(rows + [r], tool, n) == Weighted(rows, tool, n) + OneCarried(r, tool, n)
  {
    MoreInit(rows, r);
  }

  method SumResidency(rows: seq<Row>, requests: nat) returns (residency: map<string, nat>)
    ensures residency.Keys == Tools(rows)
    ensures forall tool <- residency :: residency[tool] == Weighted(rows, tool, requests)
  {
    residency := map[];
    var i := 0;
    while i < |rows|
      invariant 0 <= i <= |rows| && residency.Keys == Tools(rows[..i])
      invariant forall tool <- residency :: residency[tool] == Weighted(rows[..i], tool, requests)
    {
      var r := rows[i];
      assert rows[..i + 1] == rows[..i] + [r];
      ToolsMore(rows[..i], r);
      forall tool { WeightedMore(rows[..i], r, tool, requests); }
      if r.tool !in residency { NoneOfTool(rows[..i], r.tool, requests); }
      var added := r.toks * Later(r, requests);
      residency := residency[r.tool := (if r.tool in residency then residency[r.tool] else 0) + added];
      i := i + 1;
    }
    TakeAll(rows, i);
  }

  /** Every tool's residency is what all requests together carried of its results, and the list
      of the largest results is that of a full sort, though it is cut down on the way. */
  method ScanFile(es: seq<Entry>) returns (residency: map<string, nat>, top: seq<Top>)
    ensures exists at: seq<nat> :: RowsAt(es, Rows(es), at)
    ensures residency.Keys == Tools(Rows(es))
    ensures forall tool <- residency :: residency[tool] == CarriedByAll(Rows(es), tool, Requests(es))
    ensures top == Take(SortDown(LargeResults(Rows(es))), SHOWN)
  {
    var s := ReadEntries(es);
    ghost var at := RowsAre(es);
    residency := SumResidency(s.rows, s.requests);
    forall tool <- residency ensures residency[tool] == CarriedByAll(s.rows, tool, s.requests) {
      ResidencyIsCarried(s.rows, tool, s.requests);
    }
    top := Take(SortDown(s.top), SHOWN);
  }

  lemma ToolsMore(rows: seq<Row>, r: Row)
    ensures Tools(rows + [r]) == Tools(rows) + {r.tool}
  {
    var more := rows + [r];
    assert more[|rows|] == r;
    forall i | 0 <= i < |rows| ensures rows[i].tool in Tools(more) { assert more[i] == rows[i]; }
  }

  lemma {:induction false} NoneOfTool(rows: seq<Row>, tool: string, n: nat)
    requires tool !in Tools(rows)
    ensures Weighted(rows, tool, n) == 0
    decreases rows
  {
    if rows != [] {
      var k := |rows| - 1;
      assert rows[k].tool in Tools(rows);
      forall i | 0 <= i < k ensures rows[..k][i].tool in Tools(rows) { assert rows[..k][i] == rows[i]; }
      NoneOfTool(rows[..k], tool, n);
    }
  }

  // ---------- Which request issued a result ----------

  /** Block `j` of entry `i` is a call with this id. */
  predicate CallAt(es: seq<Entry>, i: nat, j: nat, id: string) {
    i < |es| && es[i].Request? && j < |es[i].calls| && es[i].calls[j].id == id
  }

  predicate ResultAt(es: seq<Entry>, i: nat, id: string) {
    i < |es| && es[i].Result? && es[i].callId == id
  }

  /** The latest call with this id before entry `k`, not answered since. */
  ghost predicate OpenCall(es: seq<Entry>, k: nat, i: nat, j: nat, id: string) {
    && i < k && CallAt(es, i, j, id)
    && (forall m: nat :: i < m < k ==> !ResultAt(es, m, id))
    && (forall m: nat, n: nat :: m < k && CallAt(es, m, n, id) ==> m < i || (m == i && n <= j))
  }

  /** Which request entry `i` is, or the latest before it: how many there are up to there. */
  function RequestNo(es: seq<Entry>, i: nat): nat {
    |set m: nat | m < i && m < |es| && es[m].Request?|
  }

  /** The row of the result at `k`: it belongs to the request with the call it answers, and if it
      answers none, to the latest. */
  ghost predicate RowAt(es: seq<Entry>, k: nat, row: Row) {
    && k < |es| && es[k].Result? && row.toks == es[k].toks
    && (forall i: nat, j: nat :: OpenCall(es, k, i, j, es[k].callId) ==>
         row.tool == es[i].calls[j].name && row.request == RequestNo(es, i + 1))
    && ((forall i: nat, j: nat :: !OpenCall(es, k, i, j, es[k].callId)) ==>
         row.tool == es[k].toolName && row.request == RequestNo(es, k))
  }

  /** `at` are the places of all results, in order. */
  ghost predicate RowsAt(es: seq<Entry>, rows: seq<Row>, at: seq<nat>) {
    && |at| == |rows| && (forall a, b :: 0 <= a < b < |at| ==> at[a] < at[b])
    && (forall k: nat :: k in at <==> k < |es| && es[k].Result?)
    && forall a :: 0 <= a < |at| ==> RowAt(es, at[a], rows[a])
  }

  lemma {:induction false} RequestNoIs(es: seq<Entry>, i: nat)
    requires i <= |es|
    ensures RequestNo(es, i) == Requests(es[..i])
    decreases i
  {
    if i > 0 {
      RequestNoIs(es, i - 1);
      assert es[..i][..i - 1] == es[..i - 1];
      var less, more := (set m: nat | m < i - 1 && m < |es| && es[m].Request?),
                        set m: nat | m < i && m < |es| && es[m].Request?;
      if es[i - 1].Request? {
        assert more == less + {i - 1};
      } else {
        assert more == less;
      }
    }
  }

  /** What is pending before entry `k`. */
  ghost predicate PendingIs(es: seq<Entry>, k: nat, pending: map<string, Issued>, id: string) {
    && (id in pending <==> exists i: nat, j: nat :: OpenCall(es, k, i, j, id))
    && forall i: nat, j: nat :: OpenCall(es, k, i, j, id) ==>
         id in pending && pending[id] == Issued(es[i].calls[j].name, RequestNo(es, i + 1))
  }

  predicate LastIn(calls: seq<Call>, j: nat, id: string) {
    j < |calls| && calls[j].id == id && forall n :: j < n < |calls| ==> calls[n].id != id
  }

  lemma {:induction false} NoteHas(pending: map<string, Issued>, calls: seq<Call>, request: nat, id: string, j: nat)
    requires LastIn(calls, j, id)
    ensures id in Note(pending, calls, request) && Note(pending, calls, request)[id] == Issued(calls[j].name, request)
    decreases calls
  {
    var n := |calls| - 1;
    if j < n { NoteHas(pending, calls[..n], request, id, j); }
  }

  predicate NoneIn(calls: seq<Call>, id: string) {
    forall n :: 0 <= n < |calls| ==> calls[n].id != id
  }

  lemma {:induction false} NoteHasNot(pending: map<string, Issued>, calls: seq<Call>, request: nat, id: string)
    requires NoneIn(calls, id)
    ensures id in Note(pending, calls, request) <==> id in pending
    ensures id in pending ==> Note(pending, calls, request)[id] == pending[id]
    decreases calls
  {
    if calls != [] { NoteHasNot(pending, calls[..|calls| - 1], request, id); }
  }

  lemma {:induction false} LastOne(calls: seq<Call>, id: string) returns (j: nat)
    requires !NoneIn(calls, id)
    ensures LastIn(calls, j, id)
    decreases calls
  {
    j := |calls| - 1;
    if calls[j].id != id { j := LastOne(calls[..j], id); }
  }

  /** The last call of a request is open right behind it, and no other with its id is. */
  lemma CalledHere(es: seq<Entry>, k: nat, next: nat, n: nat, id: string)
    requires k < |es| && next == k + 1 && es[k].Request? && LastIn(es[k].calls, n, id)
    ensures OpenCall(es, next, k, n, id)
    ensures forall i: nat, j: nat :: OpenCall(es, next, i, j, id) ==> i == k && j == n
  {
    assert CallAt(es, k, n, id);
  }

  /** An entry that has nothing to do with the id leaves its calls as open as they were. */
  lemma NotCalledHere(es: seq<Entry>, k: nat, next: nat, id: string)
    requires k < |es| && next == k + 1
    requires if es[k].Request? then NoneIn(es[k].calls, id) else es[k].callId != id
    ensures forall i: nat, j: nat :: OpenCall(es, next, i, j, id) <==> OpenCall(es, k, i, j, id)
  {
  }

  lemma AnsweredHere(es: seq<Entry>, k: nat, next: nat, id: string)
    requires k < |es| && next == k + 1 && es[k].Result? && es[k].callId == id
    ensures forall i: nat, j: nat :: !OpenCall(es, next, i, j, id)
  {
    assert ResultAt(es, k, id);
  }

  lemma PendingStep(es: seq<Entry>, k: nat, next: nat, pending: map<string, Issued>, id: string)
    requires k < |es| && next == k + 1 && PendingIs(es, k, pending, id)
    ensures PendingIs(es, next, PendingThen(pending, es[k], RequestNo(es, next)), id)
  {
    match es[k]
    case Request(calls) =>
      if NoneIn(calls, id) {
        NotCalledHere(es, k, next, id);
        NoteHasNot(pending, calls, RequestNo(es, next), id);
      } else {
        var n := LastOne(calls, id);
        CalledHere(es, k, next, n, id);
        NoteHas(pending, calls, RequestNo(es, next), id, n);
      }
    case Result(other, _, _) =>
      if other == id { AnsweredHere(es, k, next, id); } else { NotCalledHere(es, k, next, id); }
  }

  lemma {:induction false} PendingIsAt(es: seq<Entry>, k: nat, id: string)
    requires k <= |es|
    ensures PendingIs(es, k, Pending(es[..k]), id)
    decreases k
  {
    if k > 0 {
      PendingIsAt(es, k - 1, id);
      RequestNoIs(es, k);
      assert es[..k][..k - 1] == es[..k - 1];
      PendingStep(es, k - 1, k, Pending(es[..k - 1]), id);
    }
  }

  lemma {:induction false} RowIsAt(es: seq<Entry>, k: nat)
    requires k < |es| && es[k].Result?
    ensures RowAt(es, k, RowOf(es[..k], es[k].callId, es[k].toolName, es[k].toks))
  {
    PendingIsAt(es, k, es[k].callId);
    RequestNoIs(es, k);
  }

  lemma RowAtSame(es: seq<Entry>, more: seq<Entry>, k: nat, row: Row)
    requires RowAt(es, k, row) && es <= more
    ensures RowAt(more, k, row)
  {
    forall i: nat, j: nat ensures OpenCall(more, k, i, j, more[k].callId) <==> OpenCall(es, k, i, j, es[k].callId) {
      OpenSame(es, more, k, i, j, es[k].callId);
    }
    forall i: nat | i <= k ensures RequestNo(more, i) == RequestNo(es, i) { RequestSame(es, more, i); }
  }

  lemma OpenSame(es: seq<Entry>, more: seq<Entry>, k: nat, i: nat, j: nat, id: string)
    requires es <= more && k < |es|
    ensures OpenCall(more, k, i, j, id) <==> OpenCall(es, k, i, j, id)
  {
    forall m: nat, n: nat | m < k ensures CallAt(more, m, n, id) <==> CallAt(es, m, n, id) { }
    forall m: nat | m < k ensures ResultAt(more, m, id) <==> ResultAt(es, m, id) { }
  }

  lemma RequestSame(es: seq<Entry>, more: seq<Entry>, i: nat)
    requires es <= more && i <= |es|
    ensures RequestNo(more, i) == RequestNo(es, i)
  {
    assert (set m: nat | m < i && m < |more| && more[m].Request?) == set m: nat | m < i && m < |es| && es[m].Request?;
  }

  lemma RowsAtSame(es: seq<Entry>, e: Entry, rows: seq<Row>, at: seq<nat>)
    requires RowsAt(es, rows, at)
    ensures forall a :: 0 <= a < |at| ==> at[a] < |es| && RowAt(es + [e], at[a], rows[a])
  {
    forall a | 0 <= a < |at| ensures at[a] < |es| && RowAt(es + [e], at[a], rows[a]) {
      assert at[a] in at;
      RowAtSame(es, es + [e], at[a], rows[a]);
    }
  }

  lemma NoRowMore(es: seq<Entry>, e: Entry, rows: seq<Row>, at: seq<nat>)
    requires RowsAt(es, rows, at) && !e.Result?
    ensures RowsAt(es + [e], rows, at)
  {
    RowsAtSame(es, e, rows, at);
  }

  lemma RowMore(es: seq<Entry>, e: Entry, rows: seq<Row>, at: seq<nat>, row: Row)
    requires RowsAt(es, rows, at) && e.Result? && RowAt(es + [e], |es|, row)
    ensures RowsAt(es + [e], rows + [row], at + [|es|])
  {
    RowsAtSame(es, e, rows, at);
    OnePlaceMore(at, |es|);
    RowPlaces(es, e, at);
    forall a | 0 <= a <= |at| ensures RowAt(es + [e], (at + [|es|])[a], (rows + [row])[a]) { }
  }

  lemma RowPlaces(es: seq<Entry>, e: Entry, at: seq<nat>)
    requires e.Result? && forall k: nat :: k in at <==> k < |es| && es[k].Result?
    ensures forall k: nat :: k in at + [|es|] <==> k < |es + [e]| && (es + [e])[k].Result?
  {
  }

  /** Every result is in the rows, in order, with the tool and the request that issued it. */
  lemma {:induction false} RowsAre(es: seq<Entry>) returns (at: seq<nat>)
    ensures RowsAt(es, Rows(es), at)
    decreases es
  {
    if es == [] {
      at := [];
    } else {
      var init, e := es[..|es| - 1], es[|es| - 1];
      at := RowsAre(init);
      InitAndLast(es);
      RowsMore(init, e);
      match e
      case Request(_) =>
        NoRowMore(init, e, Rows(init), at);
        assert Rows(init) + [] == Rows(init);
      case Result(id, name, toks) =>
        RowIsAt(es, |init|);
        RowMore(init, e, Rows(init), at, RowOf(init, id, name, toks));
        at := at + [|init|];
    }
  }
}

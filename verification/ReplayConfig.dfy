/** What a session's reads would have cost under other limits: the interval algebra and the
    replay of scripts/session-stats/optimize_read_config.py. */
module ReplayConfig {
  import opened Common
  import opened Intervals

  // ---------- Interval algebra ----------

  /** The first `i` ranges, merged. */
  ghost predicate MergedTo(out: seq<Span>, sorted: seq<Span>, i: nat) {
    && i <= |sorted| && Separated(out) && out != [] && SameCover(out, sorted[..i])
    && (i < |sorted| ==> Starts(out, sorted[i]))
  }

  lemma MergeFirst(sorted: seq<Span>)
    requires Sorted(sorted) && NonEmpty(sorted) && sorted != []
    ensures MergedTo([sorted[0]], sorted, 1)
  {
    assert sorted[..1] == [sorted[0]];
  }

  lemma MergeStep(out: seq<Span>, sorted: seq<Span>, i: nat)
    requires Sorted(sorted) && NonEmpty(sorted) && i < |sorted| && MergedTo(out, sorted, i)
    ensures MergedTo(Merge(out, sorted[i]), sorted, i + 1)
  {
    TakeMore(sorted, i);
    MergeCovers(out, sorted[..i], sorted[i]);
    MergeSeparated(out, sorted[i]);
    if i + 1 < |sorted| { assert Le(sorted[i], sorted[i + 1]); }
  }

  method MergeAll(ivs: seq<Span>) returns (out: seq<Span>)
    requires NonEmpty(ivs)
    ensures Separated(out) && SameCover(out, ivs)
  {
    if ivs == [] { return []; }
    var sorted := Sort(ivs);
    SortSorted(ivs);
    SortCovers(ivs);
    SortNonEmpty(ivs);
    MergeFirst(sorted);
    out := [sorted[0]];
    var i := 1;
    while i < |sorted|
      invariant 1 <= i <= |sorted| && MergedTo(out, sorted, i)
    {
      var x := sorted[i];
      MergeStep(out, sorted, i);
      var k := |out| - 1;
      if x.start <= out[k].end + 1 {
        out := out[k := Span(out[k].start, Max(out[k].end, x.end))];
      } else {
        out := out + [x];
      }
      i := i + 1;
    }
    TakeAll(sorted, i);
  }

  lemma SortNonEmpty(ivs: seq<Span>)
    requires NonEmpty(ivs) && ivs != []
    ensures NonEmpty(Sort(ivs)) && Sort(ivs) != []
  {
    SortSorted(ivs);
    assert ivs[0] in Sort(ivs);
    forall i | 0 <= i < |Sort(ivs)| ensures Sort(ivs)[i].start <= Sort(ivs)[i].end {
      assert Sort(ivs)[i] in ivs;
    }
  }

  function Left(p: Span, x: Span): seq<Span> {
    if x.start > p.start then [Span(p.start, x.start - 1)] else []
  }

  function Right(p: Span, x: Span): seq<Span> {
    if x.end < p.end then [Span(x.end + 1, p.end)] else []
  }

  /** What is left of a piece once a range is taken out. */
  function CutOne(p: Span, x: Span): seq<Span> {
    if x.end < p.start || x.start > p.end then [p] else Left(p, x) + Right(p, x)
  }

  function Cut(ps: seq<Span>, x: Span): seq<Span> {
    if ps == [] then [] else CutOne(ps[0], x) + Cut(ps[1..], x)
  }

  lemma CutOneCovers(p: Span, x: Span, n: nat)
    ensures Covers(CutOne(p, x), n) <==> Hides(p, n) && !Hides(x, n)
  {
    var left, right := Span(p.start, if x.start > 0 then x.start - 1 else 0), Span(x.end + 1, p.end);
    if Hides(p, n) && !Hides(x, n) {
      if x.end < p.start || x.start > p.end {
        assert p in CutOne(p, x);
      } else if n < x.start {
        assert left in CutOne(p, x);
      } else {
        assert right in CutOne(p, x);
      }
    }
  }

  lemma {:induction false} CutCovers(ps: seq<Span>, x: Span, n: nat)
    ensures Covers(Cut(ps, x), n) <==> Covers(ps, n) && !Hides(x, n)
    decreases ps
  {
    if ps != [] {
      CutCovers(ps[1..], x, n);
      CutOneCovers(ps[0], x, n);
      CoversCat(CutOne(ps[0], x), Cut(ps[1..], x), n);
      CoversCat([ps[0]], ps[1..], n);
      HeadAndTail(ps);
    }
  }

  /** In order, and within the lines `first` to `last`. */
  predicate AscendingIn(s: seq<Span>, first: nat, last: nat) {
    Ascending(s) && (s != [] ==> first <= s[0].start && s[|s| - 1].end <= last)
  }

  lemma AscendingCat(a: seq<Span>, b: seq<Span>, first: nat, mid: nat, last: nat)
    requires AscendingIn(a, first, mid) && AscendingIn(b, mid + 1, last) && first <= mid + 1 <= last + 1
    ensures AscendingIn(a + b, first, last)
  {
    var ab := a + b;
    forall i | 0 < i < |ab| ensures ab[i - 1].end < ab[i].start {
      if i == |a| { assert ab[i - 1] == a[i - 1] && ab[i] == b[0]; }
    }
    if a != [] && b == [] { assert ab == a; }
    if a == [] { assert ab == b; }
  }

  lemma Widened(s: seq<Span>, a: nat, first: nat, last: nat)
    requires AscendingIn(s, a, last) && first <= a
    ensures AscendingIn(s, first, last)
  {
  }

  /** The same, with at least one line between neighbours. */
  predicate PartedIn(s: seq<Span>, first: nat, last: nat) {
    Separated(s) && (s != [] ==> first <= s[0].start && s[|s| - 1].end <= last)
  }

  lemma PartedCat(a: seq<Span>, b: seq<Span>, first: nat, mid: nat, last: nat)
    requires PartedIn(a, first, mid) && PartedIn(b, mid + 2, last) && first <= mid + 1 && mid <= last
    ensures PartedIn(a + b, first, last)
  {
    var ab := a + b;
    forall i | 0 < i < |ab| ensures ab[i - 1].end + 1 < ab[i].start {
      if i == |a| { assert ab[i - 1] == a[i - 1] && ab[i] == b[0]; }
    }
    if a != [] && b == [] { assert ab == a; }
    if a == [] { assert ab == b; }
  }

  lemma Narrowed(s: seq<Span>, a: nat, first: nat, last: nat)
    requires PartedIn(s, a, last) && first <= a
    ensures PartedIn(s, first, last)
  {
  }

  lemma CutOneParted(p: Span, x: Span)
    requires p.start <= p.end && x.start <= x.end
    ensures PartedIn(CutOne(p, x), p.start, p.end)
  {
  }

  lemma TailIn(ps: seq<Span>, first: nat, last: nat)
    requires PartedIn(ps, first, last) && ps != []
    ensures PartedIn(ps[1..], ps[0].end + 2, last) && ps[0].end <= last && first <= ps[0].start <= ps[0].end
  {
    if |ps| > 1 { LaterStarts(ps, 0, |ps| - 1); }
  }

  lemma {:induction false} CutParted(ps: seq<Span>, x: Span, first: nat, last: nat)
    requires PartedIn(ps, first, last) && x.start <= x.end
    ensures PartedIn(Cut(ps, x), first, last)
    decreases ps
  {
    if ps != [] {
      var p := ps[0];
      TailIn(ps, first, last);
      CutParted(ps[1..], x, p.end + 2, last);
      CutOneParted(p, x);
      Narrowed(CutOne(p, x), p.start, first, p.end);
      PartedCat(CutOne(p, x), Cut(ps[1..], x), first, p.end, last);
    }
  }

  ghost predicate IsDifference(out: seq<Span>, x: Span, ivs: seq<Span>) {
    forall n: nat :: Covers(out, n) <==> Hides(x, n) && !Covers(ivs, n)
  }

  lemma {:induction false} CutStep(out: seq<Span>, x: Span, seen: seq<Span>, y: Span)
    requires IsDifference(out, x, seen)
    ensures IsDifference(Cut(out, y), x, seen + [y])
  {
    forall n: nat ensures Covers(Cut(out, y), n) <==> Hides(x, n) && !Covers(seen + [y], n) {
      CutCovers(out, y, n);
      CoversMore(seen, y, n);
    }
  }

  lemma {:induction false} CutMore(ps: seq<Span>, p: Span, x: Span)
    ensures Cut(ps + [p], x) == Cut(ps, x) + CutOne(p, x)
    decreases ps
  {
    if ps == [] {
      assert [] + [p] == [p] && [p][1..] == [];
      assert Cut([p], x) == CutOne(p, x) + [];
    } else {
      CatTail(ps, [p]);
      CutMore(ps[1..], p, x);
      Assoc(CutOne(ps[0], x), Cut(ps[1..], x), CutOne(p, x));
    }
  }

  method CutPiece(cut0: seq<Span>, p: Span, x: Span) returns (cut: seq<Span>)
    ensures cut == cut0 + CutOne(p, x)
  {
    cut := cut0;
    if x.end < p.start || x.start > p.end {
      cut := cut + [p];
    } else {
      if x.start > p.start { cut := cut + [Span(p.start, x.start - 1)]; }
      if x.end < p.end { cut := cut + [Span(x.end + 1, p.end)]; }
    }
  }

  method CutEach(ps: seq<Span>, x: Span) returns (cut: seq<Span>)
    ensures cut == Cut(ps, x)
  {
    cut := [];
    var i := 0;
    while i < |ps|
      invariant 0 <= i <= |ps| && cut == Cut(ps[..i], x)
    {
      TakeMore(ps, i);
      CutMore(ps[..i], ps[i], x);
      cut := CutPiece(cut, ps[i], x);
      i := i + 1;
    }
    TakeAll(ps, i);
  }

  /** The lines of `x` that `ivs` leaves out, piece by piece and in order. */
  method Subtract(x: Span, ivs: seq<Span>) returns (out: seq<Span>)
    requires x.start <= x.end && NonEmpty(ivs)
    ensures PartedIn(out, x.start, x.end) && IsDifference(out, x, ivs)
  {
    out := [x];
    var i := 0;
    assert IsDifference(out, x, ivs[..0]);
    while i < |ivs|
      invariant 0 <= i <= |ivs| && PartedIn(out, x.start, x.end) && IsDifference(out, x, ivs[..i])
    {
      CutStep(out, x, ivs[..i], ivs[i]);
      TakeMore(ivs, i);
      CutParted(out, ivs[i], x.start, x.end);
      out := CutEach(out, ivs[i]);
      i := i + 1;
      if out == [] { break; }
    }
    Shortened(out, x, ivs, i);
  }

  lemma Shortened(out: seq<Span>, x: Span, ivs: seq<Span>, i: nat)
    requires i <= |ivs| && IsDifference(out, x, ivs[..i]) && (i == |ivs| || out == [])
    ensures IsDifference(out, x, ivs)
  {
    assert ivs == ivs[..i] + ivs[i..];
    forall n: nat ensures Covers(out, n) <==> Hides(x, n) && !Covers(ivs, n) {
      CoversCat(ivs[..i], ivs[i..], n);
    }
  }

  // ---------- Calls and what they return ----------

  datatype Kind = Bare | Range | Raw | Unbounded

  datatype Intent = Intent(kind: Kind, start: Option<nat>, end: Option<int>)

  datatype ReadCall = ReadCall(intent: Intent, actualA: Option<nat>, actualB: Option<nat>)

  datatype FileStats = FileStats(sizeLines: int, tokensPerLine: real, bytesPerLine: real)

  datatype Config = Config(defaultPage: int, lineCap: int, byteCap: int, summarizeMin: int)

  /** How many lines one call may return. */
  function PerCall(fs: FileStats, cfg: Config): (n: int)
    ensures cfg.lineCap >= 1 ==> n >= 1
  {
    if fs.bytesPerLine > 0.0
    then Min(cfg.lineCap, Max(1, (cfg.byteCap as real / fs.bytesPerLine).Floor))
    else cfg.lineCap
  }

  function Asked(intent: Intent, size: int, cfg: Config): Option<(nat, int)> {
    match intent.kind
    case Bare => Some((1, cfg.defaultPage))
    case Range =>
      var start := if intent.start.Some? && intent.start.value != 0 then intent.start.value else 1;
      Some((start, if intent.end.Some? then intent.end.value else start + cfg.defaultPage - 1))
    case Raw => Some((1, size))
    case Unbounded => None
  }

  function EffectiveReturned(rc: ReadCall, fs: FileStats, cfg: Config): (r: Option<Span>)
    ensures r.Some? ==> 1 <= r.value.start <= r.value.end
    ensures r.Some? && cfg.lineCap >= 1 ==> r.value.end - r.value.start < PerCall(fs, cfg)
  {
    var size := Max(fs.sizeLines, 1);
    match Asked(rc.intent, size, cfg)
    case None => None
    case Some((start, wanted)) =>
      var end := Min(Min(wanted, size), start + cfg.lineCap - 1);
      var capped := if fs.bytesPerLine > 0.0
                    then Min(end, start + Max(1, (cfg.byteCap as real / fs.bytesPerLine).Floor) - 1)
                    else end;
      Some(Span(start, if capped < start then start else capped))
  }

  lemma FloorIs(k: int, size: real, total: int)
    requires size > 0.0
    ensures k <= (total as real / size).Floor <==> k as real * size <= total as real
  {
    var q := total as real / size;
    assert q * size == total as real;
    if k as real <= q {
      Scaled(k as real, q, size);
    } else {
      ScaledMore(q, k as real, size);
    }
  }

  lemma Scaled(a: real, b: real, c: real)
    requires a <= b && c > 0.0
    ensures a * c <= b * c
  {
  }

  lemma ScaledMore(a: real, b: real, c: real)
    requires a < b && c > 0.0
    ensures a * c < b * c
  {
  }

  /** So many lines fit into one call: no more than the limit on lines and, but for a single line,
      than the limit on bytes. */
  predicate Fits(lines: int, fs: FileStats, cfg: Config) {
    lines <= cfg.lineCap &&
    (fs.bytesPerLine > 0.0 && lines > 1 ==> lines as real * fs.bytesPerLine <= cfg.byteCap as real)
  }

  lemma PerCallIsMost(fs: FileStats, cfg: Config, lines: int)
    ensures lines <= PerCall(fs, cfg) <==> Fits(lines, fs, cfg)
  {
    if fs.bytesPerLine > 0.0 { FloorIs(lines, fs.bytesPerLine, cfg.byteCap); }
  }

  /** What a call asks for, kind by kind. */
  predicate Asks(intent: Intent, size: int, cfg: Config, start: nat, wanted: int) {
    match intent.kind
    case Bare => start == 1 && wanted == cfg.defaultPage
    case Range =>
      && (if intent.start.None? || intent.start == Some(0) then start == 1 else intent.start == Some(start))
      && (if intent.end.None? then wanted - start + 1 == cfg.defaultPage else intent.end == Some(wanted))
    case Raw => start == 1 && wanted == size
    case Unbounded => false
  }

  /** A last line the call could have: within what was asked, the file and the limits. */
  predicate Allowed(start: nat, wanted: int, fs: FileStats, cfg: Config, end: int) {
    end <= wanted && (end <= fs.sizeLines || end <= 1) && Fits(end - start + 1, fs, cfg)
  }

  /** A call starts where it was asked to and goes as far as it may; if it may not even have its
      first line it gets that line all the same. */
  lemma EffectiveIsLongest(rc: ReadCall, fs: FileStats, cfg: Config, start: nat, wanted: int)
    requires Asks(rc.intent, Max(fs.sizeLines, 1), cfg, start, wanted)
    ensures EffectiveReturned(rc, fs, cfg).Some?
    ensures var x := EffectiveReturned(rc, fs, cfg).value;
            && x.start == start
            && (if Allowed(start, wanted, fs, cfg, start)
                then Allowed(start, wanted, fs, cfg, x.end)
                  && forall end :: Allowed(start, wanted, fs, cfg, end) ==> end <= x.end
                else x.end == start)
  {
    var x := EffectiveReturned(rc, fs, cfg).value;
    PerCallIsMost(fs, cfg, 1);
    PerCallIsMost(fs, cfg, x.end - start + 1);
    forall end | Allowed(start, wanted, fs, cfg, end) ensures end <= x.end {
      PerCallIsMost(fs, cfg, end - start + 1);
    }
  }

  /** Only calls without line bounds ask for nothing. */
  lemma UnboundedReturnsNothing(rc: ReadCall, fs: FileStats, cfg: Config)
    ensures EffectiveReturned(rc, fs, cfg).None? <==> rc.intent.kind == Unbounded
    ensures rc.intent.kind != Unbounded ==>
              exists start: nat, wanted :: Asks(rc.intent, Max(fs.sizeLines, 1), cfg, start, wanted)
  {
    if rc.intent.kind != Unbounded {
      var (start, wanted) := Asked(rc.intent, Max(fs.sizeLines, 1), cfg).value;
      assert Asks(rc.intent, Max(fs.sizeLines, 1), cfg, start, wanted);
    }
  }

  const OVERHEAD: real := 200.0

  function CostOfChunk(x: Span, fs: FileStats, kind: Kind, cfg: Config): real {
    var raw := Max(x.end - x.start + 1, 0) as real * fs.tokensPerLine;
    if kind == Bare && cfg.summarizeMin >= 0 && fs.sizeLines >= cfg.summarizeMin then raw * 0.35 else raw
  }

  // ---------- Filling a gap ----------

  /** `chunks` runs from line `s` without a hole up to line `next - 1`, each chunk at most `cap`
      lines long. */
  ghost predicate Chain(chunks: seq<Span>, s: nat, next: nat, cap: int) {
    if chunks == [] then next == s
    else
      var x := chunks[|chunks| - 1];
      x.start <= x.end && x.end + 1 == next && x.end - x.start < cap
      && Chain(chunks[..|chunks| - 1], s, x.start, cap)
  }

  /** The next line after a chunk of at most `cap` lines from `cur` on. */
  function NextChunk(cur: int, last: int, cap: int): int {
    Min(cur + cap - 1, last) + 1
  }

  function AfterChunks(cur: int, last: int, cap: int, n: nat): int {
    if n == 0 then cur else NextChunk(AfterChunks(cur, last, cap, n - 1), last, cap)
  }

  /** The loop below ends if and only if the limit is at least one line: with less, it never gets
      past the first line. */
  lemma ChunkLoopEndsIff(x: Span, fs: FileStats, cfg: Config)
    requires x.start <= x.end
    ensures (exists n: nat :: AfterChunks(x.start, x.end, PerCall(fs, cfg), n) > x.end) <==> cfg.lineCap >= 1
  {
    var cap := PerCall(fs, cfg);
    if cfg.lineCap >= 1 {
      FarEnough(x, cap, x.end - x.start + 1);
    } else {
      forall n: nat ensures AfterChunks(x.start, x.end, cap, n) <= x.start { StuckChunks(x, cap, n); }
    }
  }

  lemma {:induction false} FarEnough(x: Span, cap: int, n: nat)
    requires cap >= 1 && x.start <= x.end
    ensures AfterChunks(x.start, x.end, cap, n) >= Min(x.start + n, x.end + 1)
    decreases n
  {
    if n > 0 { FarEnough(x, cap, n - 1); }
  }

  lemma {:induction false} StuckChunks(x: Span, cap: int, n: nat)
    requires cap <= 0
    ensures AfterChunks(x.start, x.end, cap, n) <= x.start
    decreases n
  {
    if n > 0 { StuckChunks(x, cap, n - 1); }
  }

  method ChunkRange(x: Span, fs: FileStats, cfg: Config) returns (out: seq<Span>)
    requires cfg.lineCap >= 1 && x.start <= x.end
    ensures Chain(out, x.start, x.end + 1, PerCall(fs, cfg))
    ensures forall i :: 0 <= i < |out| - 1 ==> out[i].end - out[i].start + 1 == PerCall(fs, cfg)
  {
    var cap := PerCall(fs, cfg);
    out := [];
    var cur := x.start;
    while cur <= x.end
      invariant x.start <= cur <= x.end + 1 && Chain(out, x.start, cur, cap)
      invariant forall i :: 0 <= i < |out| && (cur <= x.end || i < |out| - 1) ==> out[i].end - out[i].start + 1 == cap
    {
      var end := Min(cur + cap - 1, x.end);
      MoreInit(out, Span(cur, end));
      out := out + [Span(cur, end)];
      cur := end + 1;
    }
  }

  lemma {:induction false} ChainIsGap(chunks: seq<Span>, s: nat, next: nat, cap: int)
    requires Chain(chunks, s, next, cap)
    ensures s <= next && (next > 0 ==> AscendingIn(chunks, s, next - 1)) && (next == 0 ==> chunks == [])
    ensures forall x <- chunks :: x.end - x.start < cap
    ensures forall n: nat :: Covers(chunks, n) <==> s <= n < next
    decreases chunks
  {
    if chunks != [] {
      var k := |chunks| - 1;
      var x := chunks[k];
      ChainIsGap(chunks[..k], s, x.start, cap);
      assert chunks == chunks[..k] + [x];
      forall n: nat ensures Covers(chunks, n) <==> s <= n < next { CoversMore(chunks[..k], x, n); }
    }
  }

  /** As few calls as the limit allows. */
  lemma {:induction false} FewestChunks(chunks: seq<Span>, s: nat, next: nat, cap: int)
    requires Chain(chunks, s, next, cap) && cap >= 1
    requires forall i :: 0 <= i < |chunks| - 1 ==> chunks[i].end - chunks[i].start + 1 == cap
    ensures chunks != [] ==> (|chunks| - 1) * cap < next - s <= |chunks| * cap
    decreases chunks
  {
    if chunks != [] {
      var k := |chunks| - 1;
      FewestChunks(chunks[..k], s, chunks[k].start, cap);
      FullChain(chunks[..k], s, chunks[k].start, cap);
    }
  }

  lemma {:induction false} FullChain(chunks: seq<Span>, s: nat, next: nat, cap: int)
    requires Chain(chunks, s, next, cap)
    requires forall i :: 0 <= i < |chunks| ==> chunks[i].end - chunks[i].start + 1 == cap
    ensures next - s == |chunks| * cap
    decreases chunks
  {
    if chunks != [] { FullChain(chunks[..|chunks| - 1], s, chunks[|chunks| - 1].start, cap); }
  }

  // ---------- The replay ----------

  datatype Charge = Charge(span: Span, kind: Kind)

  function Spans(cs: seq<Charge>): seq<Span> {
    if cs == [] then [] else Spans(cs[..|cs| - 1]) + [cs[|cs| - 1].span]
  }

  function Cost(cs: seq<Charge>, fs: FileStats, cfg: Config): real {
    if cs == [] then 0.0
    else
      var c := cs[|cs| - 1];
      Cost(cs[..|cs| - 1], fs, cfg) + CostOfChunk(c.span, fs, c.kind, cfg) + OVERHEAD
  }

  /** A call is charged unless every line it returns has been paid for. */
  ghost function PaidMore(before: seq<Charge>, rc: ReadCall, fs: FileStats, cfg: Config): seq<Charge> {
    match EffectiveReturned(rc, fs, cfg)
    case None => before
    case Some(x) => if AllCovered(x, Spans(before)) then before else before + [Charge(x, rc.intent.kind)]
  }

  /** The calls that still have to be made: those that return a line no call before returned. */
  ghost function Paid(calls: seq<ReadCall>, fs: FileStats, cfg: Config): seq<Charge> {
    if calls == [] then []
    else PaidMore(Paid(calls[..|calls| - 1], fs, cfg), calls[|calls| - 1], fs, cfg)
  }

  function ObservedBy(rc: ReadCall): seq<Span> {
    if rc.actualA.Some? && rc.actualB.Some? && rc.actualB.value >= rc.actualA.value
    then [Span(rc.actualA.value, rc.actualB.value)]
    else []
  }

  /** The line ranges the agent really received. */
  function Observed(calls: seq<ReadCall>): seq<Span> {
    if calls == [] then [] else Observed(calls[..|calls| - 1]) + ObservedBy(calls[|calls| - 1])
  }

  lemma SameCoverMore(a: seq<Span>, b: seq<Span>, x: Span)
    requires SameCover(a, b)
    ensures SameCover(a + [x], b + [x])
  {
    forall n: nat ensures Covers(a + [x], n) <==> Covers(b + [x], n) {
      CoversMore(a, x, n);
      CoversMore(b, x, n);
    }
  }

  ghost predicate Delivered(covered: seq<Span>, total: real, kept: nat, paid: seq<Charge>, fs: FileStats, cfg: Config) {
    && Separated(covered) && SameCover(covered, Spans(paid))
    && total == Cost(paid, fs, cfg) && kept == |paid|
  }

  method DeliverOne(rc: ReadCall, fs: FileStats, cfg: Config, covered0: seq<Span>, total0: real, kept0: nat,
                    ghost before: seq<Charge>)
    returns (covered: seq<Span>, total: real, kept: nat)
    requires Delivered(covered0, total0, kept0, before, fs, cfg)
    ensures Delivered(covered, total, kept, PaidMore(before, rc, fs, cfg), fs, cfg)
  {
    covered, total, kept := covered0, total0, kept0;
    var effective := EffectiveReturned(rc, fs, cfg);
    if effective.None? { return; }
    var x := effective.value;
    ContainedIffCovered(x, covered);
    CoverSameAll(x, covered, Spans(before));
    if Contained(x, covered) { return; }
    total := total + CostOfChunk(x, fs, rc.intent.kind, cfg) + OVERHEAD;
    kept := kept + 1;
    SameCoverMore(covered, Spans(before), x);
    MoreInit(before, Charge(x, rc.intent.kind));
    covered := MergeAll(covered + [x]);
  }

  /** First phase: drop the calls that bring nothing new, charge the others. */
  method Deliver(calls: seq<ReadCall>, fs: FileStats, cfg: Config)
    returns (covered: seq<Span>, observed: seq<Span>, total: real, kept: nat)
    ensures Delivered(covered, total, kept, Paid(calls, fs, cfg), fs, cfg)
    ensures observed == Observed(calls) && NonEmpty(observed)
  {
    covered, observed, total, kept := [], [], 0.0, 0;
    var i := 0;
    while i < |calls|
      invariant 0 <= i <= |calls| && observed == Observed(calls[..i]) && NonEmpty(observed)
      invariant Delivered(covered, total, kept, Paid(calls[..i], fs, cfg), fs, cfg)
    {
      TakeMore(calls, i);
      observed := observed + ObservedBy(calls[i]);
      covered, total, kept := DeliverOne(calls[i], fs, cfg, covered, total, kept, Paid(calls[..i], fs, cfg));
      i := i + 1;
    }
    TakeAll(calls, i);
  }

  ghost predicate Shortfall(gaps: seq<Span>, needed: seq<Span>, covered: seq<Span>) {
    forall n: nat :: Covers(gaps, n) <==> Covers(needed, n) && !Covers(covered, n)
  }

  lemma ShortfallStep(gaps: seq<Span>, seen: seq<Span>, covered: seq<Span>, need: Span, more: seq<Span>)
    requires Shortfall(gaps, seen, covered) && IsDifference(more, need, covered)
    ensures Shortfall(gaps + more, seen + [need], covered)
  {
    forall n: nat ensures Covers(gaps + more, n) <==> Covers(seen + [need], n) && !Covers(covered, n) {
      CoversCat(gaps, more, n);
      CoversMore(seen, need, n);
    }
  }

  /** The gaps found in the first `i` ranges. */
  ghost predicate GapsSoFar(gaps: seq<Span>, needed: seq<Span>, i: nat, covered: seq<Span>) {
    && i <= |needed| && Shortfall(gaps, needed[..i], covered)
    && if i == 0 then gaps == [] else PartedIn(gaps, 0, needed[i - 1].end)
  }

  lemma GapsStep(gaps: seq<Span>, needed: seq<Span>, i: nat, covered: seq<Span>, more: seq<Span>)
    requires i < |needed| && Separated(needed) && GapsSoFar(gaps, needed, i, covered)
    requires PartedIn(more, needed[i].start, needed[i].end) && IsDifference(more, needed[i], covered)
    ensures GapsSoFar(gaps + more, needed, i + 1, covered)
  {
    ShortfallStep(gaps, needed[..i], covered, needed[i], more);
    TakeMore(needed, i);
    if i == 0 {
      assert gaps + more == more;
    } else {
      Narrowed(more, needed[i].start, needed[i - 1].end + 2, needed[i].end);
      PartedCat(gaps, more, 0, needed[i - 1].end, needed[i].end);
    }
  }

  /** What was received and would not be: in order, each line once. */
  method FindGaps(needed: seq<Span>, covered: seq<Span>) returns (gaps: seq<Span>)
    requires Separated(needed) && Separated(covered)
    ensures Separated(gaps) && Shortfall(gaps, needed, covered)
  {
    gaps := [];
    var i := 0;
    while i < |needed|
      invariant 0 <= i <= |needed| && GapsSoFar(gaps, needed, i, covered)
    {
      var more := Subtract(needed[i], covered);
      GapsStep(gaps, needed, i, covered, more);
      gaps := gaps + more;
      i := i + 1;
    }
    TakeAll(needed, i);
  }

  function Bill(lines: int, chunks: int, fs: FileStats): real {
    lines as real * fs.tokensPerLine + chunks as real * OVERHEAD
  }

  function FillCost(xs: seq<Span>, fs: FileStats): real {
    Bill(CountLines(xs), |xs|, fs)
  }

  lemma FillCostMore(xs: seq<Span>, x: Span, fs: FileStats, cfg: Config)
    requires x.start <= x.end
    ensures FillCost(xs + [x], fs) == FillCost(xs, fs) + CostOfChunk(x, fs, Range, cfg) + OVERHEAD
  {
    MoreInit(xs, x);
    var a, b, t := CountLines(xs) as real, (x.end - x.start + 1) as real, fs.tokensPerLine;
    assert (a + b) * t == a * t + b * t;
  }

  /** The loop over one gap's chunks. */
  method ChargeChunks(chunks: seq<Span>, fs: FileStats, cfg: Config, total0: real, kept0: nat, covered0: seq<Span>,
                      ghost filled: seq<Span>)
    returns (total: real, kept: nat, covered: seq<Span>)
    requires NonEmpty(chunks)
    ensures covered == covered0 + chunks && kept == kept0 + |chunks|
    ensures total - FillCost(filled + chunks, fs) == total0 - FillCost(filled, fs)
  {
    total, kept, covered := total0, kept0, covered0;
    var i := 0;
    assert filled + chunks[..0] == filled;
    while i < |chunks|
      invariant 0 <= i <= |chunks| && covered == covered0 + chunks[..i] && kept == kept0 + i
      invariant total - FillCost(filled + chunks[..i], fs) == total0 - FillCost(filled, fs)
    {
      FillCostMore(filled + chunks[..i], chunks[i], fs, cfg);
      assert filled + chunks[..i + 1] == filled + chunks[..i] + [chunks[i]];
      total := total + CostOfChunk(chunks[i], fs, Range, cfg) + OVERHEAD;
      kept := kept + 1;
      covered := covered + [chunks[i]];
      i := i + 1;
    }
    TakeAll(chunks, i);
  }

  ghost predicate Joined(c: seq<Span>, a: seq<Span>, b: seq<Span>) {
    forall n: nat :: Covers(c, n) <==> Covers(a, n) || Covers(b, n)
  }

  lemma JoinedMore(c: seq<Span>, a: seq<Span>, b: seq<Span>, more: seq<Span>, merged: seq<Span>)
    requires Joined(c, a, b) && SameCover(merged, c + more)
    ensures Joined(merged, a, b + more)
  {
    forall n: nat ensures Covers(merged, n) <==> Covers(a, n) || Covers(b + more, n) {
      CoversCat(c, more, n);
      CoversCat(b, more, n);
    }
  }

  lemma ChunksCover(filled: seq<Span>, seen: seq<Span>, gap: Span, chunks: seq<Span>, cap: int)
    requires SameCover(filled, seen) && gap.start <= gap.end && Chain(chunks, gap.start, gap.end + 1, cap)
    ensures SameCover(filled + chunks, seen + [gap])
    ensures AscendingIn(chunks, gap.start, gap.end) && forall x <- chunks :: x.end - x.start < cap
  {
    ChainIsGap(chunks, gap.start, gap.end + 1, cap);
    forall n: nat ensures Covers(filled + chunks, n) <==> Covers(seen + [gap], n) {
      CoversCat(filled, chunks, n);
      CoversMore(seen, gap, n);
    }
  }

  ghost predicate EndsGap(gaps: seq<Span>, end: nat) {
    exists g :: g in gaps && g.end == end
  }

  /** Only the last chunk of a gap is shorter than a call may be. */
  ghost predicate FullToEnds(filled: seq<Span>, gaps: seq<Span>, cap: int) {
    forall x :: x in filled ==> x.end - x.start + 1 == cap || EndsGap(gaps, x.end)
  }

  lemma {:induction false} FullMore(filled: seq<Span>, gaps: seq<Span>, cap: int, gap: Span, chunks: seq<Span>)
    requires FullToEnds(filled, gaps, cap) && gap in gaps && Chain(chunks, gap.start, gap.end + 1, cap)
    requires forall i :: 0 <= i < |chunks| - 1 ==> chunks[i].end - chunks[i].start + 1 == cap
    ensures FullToEnds(filled + chunks, gaps, cap)
  {
    forall x | x in chunks ensures x.end - x.start + 1 == cap || EndsGap(gaps, x.end) {
      var i :| 0 <= i < |chunks| && chunks[i] == x;
    }
  }

  /** Behind a gap a line is not missing. */
  lemma {:induction false} GapEnds(gaps: seq<Span>, end: nat)
    requires Separated(gaps) && EndsGap(gaps, end)
    ensures !Covers(gaps, end + 1)
  {
    var g :| g in gaps && g.end == end;
    var i :| 0 <= i < |gaps| && gaps[i] == g;
    if Covers(gaps, end + 1) {
      var y :| y in gaps && Hides(y, end + 1);
      var j :| 0 <= j < |gaps| && gaps[j] == y;
      if i < j { NextStarts(gaps, i, j); }
      if j < i { LaterStarts(gaps, j, i); }
    }
  }

  lemma {:induction false} NextStarts(s: seq<Span>, i: nat, j: nat)
    requires Separated(s) && i < j < |s|
    ensures s[i].end + 1 < s[j].start
    decreases j
  {
    if i < j - 1 {
      NextStarts(s, i, j - 1);
      assert s[j - 1].start <= s[j - 1].end;
    }
  }

  /** The chunks so far fill the first `i` gaps. */
  ghost predicate FilledSoFar(filled: seq<Span>, gaps: seq<Span>, i: nat, cap: int) {
    && i <= |gaps| && SameCover(filled, gaps[..i])
    && (if i == 0 then filled == [] else AscendingIn(filled, 0, gaps[i - 1].end))
    && (forall x <- filled :: x.end - x.start < cap) && FullToEnds(filled, gaps, cap)
  }

  lemma {:induction false} FilledInOrder(filled: seq<Span>, gaps: seq<Span>, i: nat, chunks: seq<Span>)
    requires i < |gaps| && Ascending(gaps) && AscendingIn(chunks, gaps[i].start, gaps[i].end)
    requires if i == 0 then filled == [] else AscendingIn(filled, 0, gaps[i - 1].end)
    ensures AscendingIn(filled + chunks, 0, gaps[i].end)
  {
    if i == 0 {
      assert filled + chunks == chunks;
    } else {
      Widened(chunks, gaps[i].start, gaps[i - 1].end + 1, gaps[i].end);
      AscendingCat(filled, chunks, 0, gaps[i - 1].end, gaps[i].end);
    }
  }

  lemma {:induction false} FilledStep(filled: seq<Span>, gaps: seq<Span>, i: nat, cap: int, chunks: seq<Span>)
    requires i < |gaps| && FilledSoFar(filled, gaps, i, cap) && Ascending(gaps)
    requires Chain(chunks, gaps[i].start, gaps[i].end + 1, cap)
    requires forall i :: 0 <= i < |chunks| - 1 ==> chunks[i].end - chunks[i].start + 1 == cap
    ensures FilledSoFar(filled + chunks, gaps, i + 1, cap)
  {
    FullMore(filled, gaps, cap, gaps[i], chunks);
    ChunksCover(filled, gaps[..i], gaps[i], chunks, cap);
    TakeMore(gaps, i);
    FilledInOrder(filled, gaps, i, chunks);
    assert forall x <- filled + chunks :: x in filled || x in chunks;
  }

  lemma FilledAll(filled: seq<Span>, gaps: seq<Span>, cap: int)
    requires FilledSoFar(filled, gaps, |gaps|, cap)
    ensures Ascending(filled) && SameCover(filled, gaps) && forall x <- filled :: x.end - x.start < cap
    ensures FullToEnds(filled, gaps, cap)
  {
    assert gaps[..|gaps|] == gaps;
  }

  lemma JoinNothing(a: seq<Span>)
    ensures Joined(a, a, [])
  {
  }

  lemma NoFill(fs: FileStats)
    ensures FillCost([], fs) == 0.0
  {
  }

  /** Second phase: fill the gaps with calls of the largest size allowed. */
  method FillGaps(gaps: seq<Span>, fs: FileStats, cfg: Config, total0: real, kept0: nat, covered0: seq<Span>)
    returns (total: real, kept: nat, covered: seq<Span>, filled: seq<Span>)
    requires (cfg.lineCap >= 1 || gaps == []) && Ascending(gaps) && Separated(covered0)
    ensures Ascending(filled) && SameCover(filled, gaps) && FullToEnds(filled, gaps, PerCall(fs, cfg))
    ensures forall x <- filled :: x.end - x.start < PerCall(fs, cfg)
    ensures total == total0 + FillCost(filled, fs) && kept == kept0 + |filled|
    ensures Joined(covered, covered0, filled)
  {
    total, kept, covered, filled := total0, kept0, covered0, [];
    var i := 0;
    JoinNothing(covered0);
    NoFill(fs);
    while i < |gaps|
      invariant 0 <= i <= |gaps| && FilledSoFar(filled, gaps, i, PerCall(fs, cfg))
      invariant total - FillCost(filled, fs) == total0 - FillCost([], fs) && kept == kept0 + |filled|
      invariant NonEmpty(covered) && Joined(covered, covered0, filled)
    {
      var chunks := ChunkRange(gaps[i], fs, cfg);
      FilledStep(filled, gaps, i, PerCall(fs, cfg), chunks);
      ChainIsGap(chunks, gaps[i].start, gaps[i].end + 1, PerCall(fs, cfg));
      var more;
      total, kept, more := ChargeChunks(chunks, fs, cfg, total, kept, covered, filled);
      var merged := MergeAll(more);
      JoinedMore(covered, covered0, filled, chunks, merged);
      covered, filled := merged, filled + chunks;
      i := i + 1;
    }
    FilledAll(filled, gaps, PerCall(fs, cfg));
  }

  /** The lines received in the session that the calls still made do not return. */
  ghost function Missing(calls: seq<ReadCall>, fs: FileStats, cfg: Config): set<nat> {
    LineSet(Observed(calls)) - LineSet(Spans(Paid(calls, fs, cfg)))
  }

  lemma {:induction false} FilledIsMissing(calls: seq<ReadCall>, fs: FileStats, cfg: Config,
                        filled: seq<Span>, gaps: seq<Span>, needed: seq<Span>, covered: seq<Span>)
    requires SameCover(filled, gaps) && Shortfall(gaps, needed, covered) && Ascending(filled)
    requires SameCover(needed, Observed(calls)) && SameCover(covered, Spans(Paid(calls, fs, cfg)))
    ensures LineSet(filled) == Missing(calls, fs, cfg) && CountLines(filled) == |Missing(calls, fs, cfg)|
  {
    forall n: nat ensures n in LineSet(filled) <==> n in Missing(calls, fs, cfg) {
      InLineSet(filled, n);
      InLineSet(Observed(calls), n);
      InLineSet(Spans(Paid(calls, fs, cfg)), n);
    }
    assert LineSet(filled) == Missing(calls, fs, cfg);
    AscendingCount(filled);
  }

  lemma {:induction false} NoLines(gaps: seq<Span>)
    requires Ascending(gaps)
    ensures LineSet(gaps) == {} ==> gaps == []
  {
    if gaps != [] {
      assert Hides(gaps[0], gaps[0].start) && Covers(gaps, gaps[0].start);
      InLineSet(gaps, gaps[0].start);
    }
  }

  // ---------- What is never lost ----------

  lemma {:induction false} PaidDeliversAll(calls: seq<ReadCall>, fs: FileStats, cfg: Config, i: nat, n: nat)
    requires i < |calls| && EffectiveReturned(calls[i], fs, cfg).Some?
    requires Hides(EffectiveReturned(calls[i], fs, cfg).value, n)
    ensures Covers(Spans(Paid(calls, fs, cfg)), n)
    decreases |calls|
  {
    var k := |calls| - 1;
    var before := Paid(calls[..k], fs, cfg);
    if i < k { PaidDeliversAll(calls[..k], fs, cfg, i, n); }
    match EffectiveReturned(calls[k], fs, cfg)
    case None =>
    case Some(x) =>
      MoreInit(before, Charge(x, calls[k].intent.kind));
      CoversMore(Spans(before), x, n);
  }

  /** Every line the agent received, and every line the simulated calls return, is paid for, and by
      one phase only. */
  lemma {:induction false} NothingIsFree(calls: seq<ReadCall>, fs: FileStats, cfg: Config, filled: seq<Span>, n: nat)
    requires LineSet(filled) == Missing(calls, fs, cfg)
    requires Covers(Observed(calls), n)
          || exists i | 0 <= i < |calls| ::
               EffectiveReturned(calls[i], fs, cfg).Some? && Hides(EffectiveReturned(calls[i], fs, cfg).value, n)
    ensures Covers(Spans(Paid(calls, fs, cfg)), n) <==> !Covers(filled, n)
  {
    InLineSet(filled, n);
    InLineSet(Observed(calls), n);
    InLineSet(Spans(Paid(calls, fs, cfg)), n);
    if !Covers(Observed(calls), n) {
      var i :| 0 <= i < |calls| && EffectiveReturned(calls[i], fs, cfg).Some?
               && Hides(EffectiveReturned(calls[i], fs, cfg).value, n);
      PaidDeliversAll(calls, fs, cfg, i, n);
    }
  }

  // ---------- The bill ----------

  predicate Returns(rc: ReadCall, fs: FileStats, cfg: Config, n: nat) {
    EffectiveReturned(rc, fs, cfg).Some? && Hides(EffectiveReturned(rc, fs, cfg).value, n)
  }

  ghost predicate ReturnedBefore(calls: seq<ReadCall>, fs: FileStats, cfg: Config, i: nat, n: nat) {
    exists j :: 0 <= j < i && j < |calls| && Returns(calls[j], fs, cfg, n)
  }

  /** A call that brings a line which none before it brought. */
  ghost predicate Kept(calls: seq<ReadCall>, fs: FileStats, cfg: Config, i: nat) {
    i < |calls| && exists n: nat :: Returns(calls[i], fs, cfg, n) && !ReturnedBefore(calls, fs, cfg, i, n)
  }

  /** Bare reads of a file that is long enough for the summariser, unless it is switched off. */
  predicate Summarized(rc: ReadCall, fs: FileStats, cfg: Config) {
    !(rc.intent.kind != Bare || fs.sizeLines < cfg.summarizeMin || cfg.summarizeMin < 0)
  }

  /** The lines of all the kept calls that come back summarised, or of all the others. */
  ghost function KeptLines(calls: seq<ReadCall>, fs: FileStats, cfg: Config, summarized: bool): int {
    if calls == [] then 0
    else
      var k := |calls| - 1;
      KeptLines(calls[..k], fs, cfg, summarized) +
      if Kept(calls, fs, cfg, k) && Summarized(calls[k], fs, cfg) == summarized
      then EffectiveReturned(calls[k], fs, cfg).value.end - EffectiveReturned(calls[k], fs, cfg).value.start + 1
      else 0
  }

  ghost function KeptCalls(calls: seq<ReadCall>, fs: FileStats, cfg: Config): set<nat> {
    set i: nat | i < |calls| && Kept(calls, fs, cfg, i)
  }

  lemma ReturnedInPrefix(calls: seq<ReadCall>, fs: FileStats, cfg: Config, k: nat, i: nat, n: nat)
    requires i <= k <= |calls|
    ensures ReturnedBefore(calls[..k], fs, cfg, i, n) <==> ReturnedBefore(calls, fs, cfg, i, n)
  {
    if j :| 0 <= j < i && j < |calls| && Returns(calls[j], fs, cfg, n) { assert calls[..k][j] == calls[j]; }
    if j :| 0 <= j < i && j < k && Returns(calls[..k][j], fs, cfg, n) { assert calls[..k][j] == calls[j]; }
  }

  lemma KeptInPrefix(calls: seq<ReadCall>, fs: FileStats, cfg: Config, k: nat, i: nat)
    requires i < k <= |calls|
    ensures Kept(calls[..k], fs, cfg, i) <==> Kept(calls, fs, cfg, i)
  {
    assert calls[..k][i] == calls[i];
    forall n: nat ensures ReturnedBefore(calls[..k], fs, cfg, i, n) <==> ReturnedBefore(calls, fs, cfg, i, n) {
      ReturnedInPrefix(calls, fs, cfg, k, i, n);
    }
  }

  lemma {:induction false} PaidIsReturned(calls: seq<ReadCall>, fs: FileStats, cfg: Config, n: nat)
    requires Covers(Spans(Paid(calls, fs, cfg)), n)
    ensures ReturnedBefore(calls, fs, cfg, |calls|, n)
    decreases |calls|
  {
    if calls != [] {
      var k := |calls| - 1;
      var before := Paid(calls[..k], fs, cfg);
      if Covers(Spans(before), n) {
        PaidIsReturned(calls[..k], fs, cfg, n);
        var j :| 0 <= j < k && Returns(calls[..k][j], fs, cfg, n);
        assert Returns(calls[j], fs, cfg, n);
      } else {
        var x := EffectiveReturned(calls[k], fs, cfg).value;
        MoreInit(before, Charge(x, calls[k].intent.kind));
        CoversMore(Spans(before), x, n);
        assert Returns(calls[k], fs, cfg, n);
      }
    }
  }

  lemma {:induction false} PaidIffReturned(calls: seq<ReadCall>, fs: FileStats, cfg: Config, n: nat)
    ensures Covers(Spans(Paid(calls, fs, cfg)), n) <==> ReturnedBefore(calls, fs, cfg, |calls|, n)
  {
    if Covers(Spans(Paid(calls, fs, cfg)), n) { PaidIsReturned(calls, fs, cfg, n); }
    if j :| 0 <= j < |calls| && Returns(calls[j], fs, cfg, n) { PaidDeliversAll(calls, fs, cfg, j, n); }
  }

  /** The last call is charged if and only if it is kept. */
  lemma {:induction false} ChargedIffKept(calls: seq<ReadCall>, fs: FileStats, cfg: Config)
    requires calls != []
    ensures var k := |calls| - 1;
            var before, rc := Paid(calls[..k], fs, cfg), calls[k];
            Paid(calls, fs, cfg) == if Kept(calls, fs, cfg, k)
                                    then before + [Charge(EffectiveReturned(rc, fs, cfg).value, rc.intent.kind)]
                                    else before
  {
    var k := |calls| - 1;
    var before := Paid(calls[..k], fs, cfg);
    forall n: nat ensures Covers(Spans(before), n) <==> ReturnedBefore(calls, fs, cfg, k, n) {
      PaidIffReturned(calls[..k], fs, cfg, n);
      ReturnedInPrefix(calls, fs, cfg, k, k, n);
    }
    match EffectiveReturned(calls[k], fs, cfg)
    case None =>
    case Some(x) =>
      if !AllCovered(x, Spans(before)) {
        var n: nat :| Hides(x, n) && !Covers(Spans(before), n);
        assert Returns(calls[k], fs, cfg, n);
      }
  }

  /** What a call's lines count for: twenty each, or seven if they are summarised. */
  function Weight(rc: ReadCall, fs: FileStats, cfg: Config): int
    requires EffectiveReturned(rc, fs, cfg).Some?
  {
    var lines := EffectiveReturned(rc, fs, cfg).value.end - EffectiveReturned(rc, fs, cfg).value.start + 1;
    if Summarized(rc, fs, cfg) then 7 * lines else 20 * lines
  }

  predicate Weighs(charge: real, t: real, weight: int) {
    20.0 * charge == t * weight as real
  }

  /** Twenty times what one charge comes to. */
  lemma ChargeIs(rc: ReadCall, fs: FileStats, cfg: Config)
    requires EffectiveReturned(rc, fs, cfg).Some?
    ensures Weighs(CostOfChunk(EffectiveReturned(rc, fs, cfg).value, fs, rc.intent.kind, cfg), fs.tokensPerLine,
                   Weight(rc, fs, cfg))
  {
  }

  lemma Distribute(t: real, a: int, b: int)
    ensures t * (a + b) as real == t * a as real + t * b as real
  {
  }

  /** Twenty times the total: each line by its weight, and 4000 a call. */
  predicate ComesTo(total: real, t: real, weighted: int, kept: int) {
    20.0 * total == t * weighted as real + 4000.0 * kept as real
  }

  /** One charge more on the bill. */
  lemma BillMore(t: real, cost: real, a: int, kept: int, charge: real, b: int, cost': real, a': int, kept': int)
    requires ComesTo(cost, t, a, kept) && Weighs(charge, t, b)
    requires cost' == cost + charge + 200.0 && a' == a + b && kept' == kept + 1
    ensures ComesTo(cost', t, a', kept')
  {
    Distribute(t, a, b);
  }

  lemma KeptCallsIs(calls: seq<ReadCall>, fs: FileStats, cfg: Config, k: nat, i: nat)
    requires k + 1 == |calls|
    ensures i in KeptCalls(calls, fs, cfg)
       <==> i in KeptCalls(calls[..k], fs, cfg) || (i == k && Kept(calls, fs, cfg, k))
    ensures k !in KeptCalls(calls[..k], fs, cfg)
  {
    if i < k { KeptInPrefix(calls, fs, cfg, k, i); }
  }

  lemma OneMore(all: set<nat>, before: set<nat>, k: nat, more: bool)
    requires k !in before && forall i: nat :: i in all <==> i in before || (i == k && more)
    ensures |all| == |before| + if more then 1 else 0
  {
    if more {
      assert all == before + {k};
    } else {
      assert all == before;
    }
  }

  lemma KeptCallsMore(calls: seq<ReadCall>, fs: FileStats, cfg: Config)
    requires calls != []
    ensures var k := |calls| - 1;
            |KeptCalls(calls, fs, cfg)| == |KeptCalls(calls[..k], fs, cfg)| + if Kept(calls, fs, cfg, k) then 1 else 0
  {
    var k: nat := |calls| - 1;
    var all, before, more := KeptCalls(calls, fs, cfg), KeptCalls(calls[..k], fs, cfg), Kept(calls, fs, cfg, k);
    forall i: nat ensures i in all <==> i in before || (i == k && more) { KeptCallsIs(calls, fs, cfg, k, i); }
    KeptCallsIs(calls, fs, cfg, k, k);
    OneMore(all, before, k, more);
  }

  /** The lines of the kept calls, each with its weight. */
  ghost function Weighted(calls: seq<ReadCall>, fs: FileStats, cfg: Config): int {
    20 * KeptLines(calls, fs, cfg, false) + 7 * KeptLines(calls, fs, cfg, true)
  }

  lemma {:induction false} WeightedMore(calls: seq<ReadCall>, fs: FileStats, cfg: Config)
    requires calls != []
    ensures var k := |calls| - 1;
            Weighted(calls, fs, cfg) == Weighted(calls[..k], fs, cfg) +
              if Kept(calls, fs, cfg, k)
              then Weight(calls[k], fs, cfg)
              else 0
  {
  }

  lemma {:induction false} CostMore(calls: seq<ReadCall>, fs: FileStats, cfg: Config)
    requires calls != [] && Kept(calls, fs, cfg, |calls| - 1)
    ensures var k := |calls| - 1;
            var x := EffectiveReturned(calls[k], fs, cfg).value;
            && |Paid(calls, fs, cfg)| == |Paid(calls[..k], fs, cfg)| + 1
            && Cost(Paid(calls, fs, cfg), fs, cfg)
               == Cost(Paid(calls[..k], fs, cfg), fs, cfg) + CostOfChunk(x, fs, calls[k].intent.kind, cfg) + 200.0
  {
    var k := |calls| - 1;
    ChargedIffKept(calls, fs, cfg);
    MoreInit(Paid(calls[..k], fs, cfg), Charge(EffectiveReturned(calls[k], fs, cfg).value, calls[k].intent.kind));
  }

  /** The bill of the calls still made. */
  lemma {:induction false} KeptBill(calls: seq<ReadCall>, fs: FileStats, cfg: Config)
    ensures |Paid(calls, fs, cfg)| == |KeptCalls(calls, fs, cfg)|
    ensures ComesTo(Cost(Paid(calls, fs, cfg), fs, cfg), fs.tokensPerLine, Weighted(calls, fs, cfg),
                    |KeptCalls(calls, fs, cfg)|)
    decreases |calls|
  {
    if calls != [] {
      var k := |calls| - 1;
      var less := calls[..k];
      KeptBill(less, fs, cfg);
      KeptCallsMore(calls, fs, cfg);
      WeightedMore(calls, fs, cfg);
      if Kept(calls, fs, cfg, k) {
        var x := EffectiveReturned(calls[k], fs, cfg).value;
        CostMore(calls, fs, cfg);
        ChargeIs(calls[k], fs, cfg);
        BillMore(fs.tokensPerLine, Cost(Paid(less, fs, cfg), fs, cfg), Weighted(less, fs, cfg),
                 |KeptCalls(less, fs, cfg)|, CostOfChunk(x, fs, calls[k].intent.kind, cfg),
                 Weight(calls[k], fs, cfg),
                 Cost(Paid(calls, fs, cfg), fs, cfg), Weighted(calls, fs, cfg), |KeptCalls(calls, fs, cfg)|);
      } else {
        ChargedIffKept(calls, fs, cfg);
      }
    }
  }

  ghost predicate Received(calls: seq<ReadCall>, n: nat) {
    exists i :: 0 <= i < |calls| && ReceivedBy(calls[i], n)
  }

  predicate ReceivedBy(rc: ReadCall, n: nat) {
    rc.actualA.Some? && rc.actualB.Some? && rc.actualA.value <= n <= rc.actualB.value
  }

  lemma {:induction false} ObservedIsReceived(calls: seq<ReadCall>, n: nat)
    ensures Covers(Observed(calls), n) <==> Received(calls, n)
    decreases |calls|
  {
    if calls != [] {
      var k := |calls| - 1;
      ObservedIsReceived(calls[..k], n);
      CoversCat(Observed(calls[..k]), ObservedBy(calls[k]), n);
      assert Covers(ObservedBy(calls[k]), n) <==> ReceivedBy(calls[k], n) by {
        if ReceivedBy(calls[k], n) { assert Hides(ObservedBy(calls[k])[0], n); }
      }
      if Received(calls[..k], n) {
        var i :| 0 <= i < k && ReceivedBy(calls[..k][i], n);
        assert ReceivedBy(calls[i], n);
      }
      if Received(calls, n) {
        var i :| 0 <= i < |calls| && ReceivedBy(calls[i], n);
        if i < k { assert calls[..k][i] == calls[i]; }
      }
    }
  }

  /** A line is missing if the agent received it and no simulated call returns it. */
  lemma {:induction false} MissingIs(calls: seq<ReadCall>, fs: FileStats, cfg: Config, n: nat)
    ensures n in Missing(calls, fs, cfg)
       <==> Received(calls, n) && forall i :: 0 <= i < |calls| ==> !Returns(calls[i], fs, cfg, n)
  {
    InLineSet(Observed(calls), n);
    InLineSet(Spans(Paid(calls, fs, cfg)), n);
    ObservedIsReceived(calls, n);
    PaidIffReturned(calls, fs, cfg, n);
  }

  /** Twenty times the total: twenty for each line that comes back in full, seven for each that is
      summarised, and 4000 a call. */
  predicate Bills(total: real, t: real, full: int, summarized: int, kept: int) {
    20.0 * total == t * (20 * full + 7 * summarized) as real + 4000.0 * kept as real
  }

  lemma BillJoined(fs: FileStats, cost: real, v: int, w: int, kept: int, m: int, chunks: int, total: real)
    requires ComesTo(cost, fs.tokensPerLine, 20 * v + 7 * w, kept) && total == cost + Bill(m, chunks, fs)
    ensures Bills(total, fs.tokensPerLine, v + m, w, kept + chunks)
  {
    Distribute(fs.tokensPerLine, 20 * v + 7 * w, 20 * m);
  }

  lemma {:induction false} WholeBill(calls: seq<ReadCall>, fs: FileStats, cfg: Config, filled: seq<Span>,
                                     total: real, kept: nat)
    requires CountLines(filled) == |Missing(calls, fs, cfg)| && kept == |Paid(calls, fs, cfg)| + |filled|
    requires total == Cost(Paid(calls, fs, cfg), fs, cfg) + FillCost(filled, fs)
    ensures kept == |KeptCalls(calls, fs, cfg)| + |filled|
    ensures Bills(total, fs.tokensPerLine, KeptLines(calls, fs, cfg, false) + |Missing(calls, fs, cfg)|,
                  KeptLines(calls, fs, cfg, true), kept)
  {
    KeptBill(calls, fs, cfg);
    BillJoined(fs, Cost(Paid(calls, fs, cfg), fs, cfg), KeptLines(calls, fs, cfg, false),
               KeptLines(calls, fs, cfg, true), |KeptCalls(calls, fs, cfg)|, |Missing(calls, fs, cfg)|, |filled|,
               total);
  }

  lemma {:induction false} AllMissing(calls: seq<ReadCall>, fs: FileStats, cfg: Config)
    ensures forall n: nat :: n in Missing(calls, fs, cfg)
              <==> Received(calls, n) && forall i :: 0 <= i < |calls| ==> !Returns(calls[i], fs, cfg, n)
  {
    forall n: nat
      ensures n in Missing(calls, fs, cfg)
         <==> Received(calls, n) && forall i :: 0 <= i < |calls| ==> !Returns(calls[i], fs, cfg, n)
    { MissingIs(calls, fs, cfg, n); }
  }

  /** A synthetic call is as long as one may be, unless the line after it is not missing. */
  ghost predicate FullUnlessLast(filled: seq<Span>, cap: int, missing: set<nat>) {
    forall x :: x in filled ==> x.end - x.start + 1 == cap || x.end + 1 !in missing
  }

  lemma {:induction false} FullWhereMissing(filled: seq<Span>, gaps: seq<Span>, cap: int)
    requires FullToEnds(filled, gaps, cap) && Separated(gaps) && SameCover(filled, gaps)
    ensures FullUnlessLast(filled, cap, LineSet(filled))
  {
    forall x | x in filled ensures x.end - x.start + 1 == cap || x.end + 1 !in LineSet(filled) {
      if EndsGap(gaps, x.end) {
        GapEnds(gaps, x.end);
        InLineSet(filled, x.end + 1);
      }
    }
  }

  method BothPhases(calls: seq<ReadCall>, fs: FileStats, cfg: Config)
    returns (total: real, kept: nat, filled: seq<Span>)
    requires cfg.lineCap >= 1 || Missing(calls, fs, cfg) == {}
    ensures Ascending(filled) && LineSet(filled) == Missing(calls, fs, cfg)
    ensures forall x <- filled :: x.end - x.start < PerCall(fs, cfg)
    ensures FullUnlessLast(filled, PerCall(fs, cfg), Missing(calls, fs, cfg))
    ensures kept == |Paid(calls, fs, cfg)| + |filled|
    ensures total == Cost(Paid(calls, fs, cfg), fs, cfg) + FillCost(filled, fs)
    ensures CountLines(filled) == |Missing(calls, fs, cfg)|
  {
    var covered, observed;
    covered, observed, total, kept := Deliver(calls, fs, cfg);
    var needed := MergeAll(observed);
    var gaps := FindGaps(needed, covered);
    if Missing(calls, fs, cfg) == {} { FilledIsMissing(calls, fs, cfg, gaps, gaps, needed, covered); }
    NoLines(gaps);
    var all;
    total, kept, all, filled := FillGaps(gaps, fs, cfg, total, kept, covered);
    FullWhereMissing(filled, gaps, PerCall(fs, cfg));
    FilledIsMissing(calls, fs, cfg, filled, gaps, needed, covered);
  }

  /** The synthetic calls make up exactly the missing lines, each once and none over the limit;
      the bill is that of the calls still made, plus every missing line once, plus a fixed sum
      for each synthetic call. */
  method ReplayPair(calls: seq<ReadCall>, fs: FileStats, cfg: Config)
    returns (total: real, kept: nat, filled: seq<Span>)
    requires cfg.lineCap >= 1 || Missing(calls, fs, cfg) == {}
    ensures Ascending(filled) && LineSet(filled) == Missing(calls, fs, cfg)
    ensures forall x <- filled :: x.end - x.start < PerCall(fs, cfg)
    ensures FullUnlessLast(filled, PerCall(fs, cfg), Missing(calls, fs, cfg))
    ensures forall n: nat :: n in Missing(calls, fs, cfg)
              <==> Received(calls, n) && forall i :: 0 <= i < |calls| ==> !Returns(calls[i], fs, cfg, n)
    ensures kept == |KeptCalls(calls, fs, cfg)| + |filled|
    ensures Bills(total, fs.tokensPerLine, KeptLines(calls, fs, cfg, false) + |Missing(calls, fs, cfg)|,
                  KeptLines(calls, fs, cfg, true), kept)
  {
    total, kept, filled := BothPhases(calls, fs, cfg);
    AllMissing(calls, fs, cfg);
    WholeBill(calls, fs, cfg, filled, total, kept);
  }
}

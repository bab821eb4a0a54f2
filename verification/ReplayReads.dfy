/** Replaying recorded reads against a candidate page size: scripts/session-stats/read_optimizer.py. */
module ReplayReads {
  import opened Common
  import opened Intervals

  // ---------- Coverage ----------

  ghost predicate PlusItem(out: seq<Span>, olds: seq<Span>, item: Span) {
    forall n: nat :: Covers(out, n) <==> Covers(olds, n) || Hides(item, n)
  }

  /** The lines collected after a prefix of the list: `out`, and `cur` while it is not placed. */
  function Collected(out: seq<Span>, cur: Span, placed: bool): seq<Span> {
    if placed then out else out + [cur]
  }

  ghost predicate Inserting(out: seq<Span>, cur: Span, placed: bool, list: seq<Span>, i: nat, item: Span) {
    && i <= |list| && Spaced(out) && cur.start <= cur.end + 1
    && (out != [] && !placed ==> out[|out| - 1].end + 1 < cur.start)
    && (i == 0 ==> out == [] && !placed)
    && (i > 0 ==> (out != [] ==> out[|out| - 1].end <= list[i - 1].end) && (placed ==> cur.end + 1 < list[i - 1].start))
    && PlusItem(Collected(out, cur, placed), list[..i], item)
  }

  lemma CoversTwo(out: seq<Span>, x: Span, y: Span, n: nat)
    ensures Covers(out + [x, y], n) <==> Covers(out, n) || Hides(x, n) || Hides(y, n)
  {
    assert out + [x, y] == out + [x] + [y];
    CoversMore(out, x, n);
    CoversMore(out + [x], y, n);
  }

  /** Below the item, above it, or joined with it. */
  predicate Steps(out: seq<Span>, cur: Span, placed: bool, x: Span, next: seq<Span>, cur': Span, placed': bool) {
    if x.end + 1 < cur.start then next == out + [x] && cur' == cur && placed' == placed
    else if cur.end + 1 < x.start then
      cur' == cur && placed' && next == if placed then out + [x] else out + [cur, x]
    else
      next == out && placed' == placed
      && cur' == Span(if cur.start <= x.start then cur.start else x.start, Max(cur.end, x.end))
  }

  lemma InsertCovers(out: seq<Span>, cur: Span, placed: bool, next: seq<Span>, cur': Span, placed': bool,
                     seen: seq<Span>, x: Span, item: Span)
    requires PlusItem(Collected(out, cur, placed), seen, item)
    requires cur.start <= cur.end + 1 && x.start <= x.end + 1
    requires Steps(out, cur, placed, x, next, cur', placed')
    requires placed ==> cur.end + 1 < x.start
    ensures PlusItem(Collected(next, cur', placed'), seen + [x], item)
  {
    forall n: nat ensures Covers(Collected(next, cur', placed'), n) <==> Covers(seen + [x], n) || Hides(item, n) {
      CoversMore(seen, x, n);
      CoversMore(out, x, n);
      CoversMore(out, cur, n);
      CoversMore(out, cur', n);
      CoversTwo(out, cur, x, n);
      CoversMore(out + [x], cur, n);
    }
  }

  lemma InsertStep(out: seq<Span>, cur: Span, placed: bool, list: seq<Span>, i: nat, item: Span,
                   next: seq<Span>, cur': Span, placed': bool)
    requires i < |list| && Spaced(list) && Inserting(out, cur, placed, list, i, item)
    requires Steps(out, cur, placed, list[i], next, cur', placed')
    ensures Inserting(next, cur', placed', list, i + 1, item)
  {
    TakeMore(list, i);
    InsertCovers(out, cur, placed, next, cur', placed', list[..i], list[i], item);
  }

  lemma InsertStart(list: seq<Span>, item: Span)
    requires item.start <= item.end + 1
    ensures Inserting([], item, false, list, 0, item)
  {
    forall n: nat ensures Covers(Collected([], item, false), n) <==> Covers(list[..0], n) || Hides(item, n) {
      CoversMore([], item, n);
    }
  }

  /** The list stays in order and spaced, and covers what it did plus the item. */
  method AddInterval(list: seq<Span>, item: Span) returns (out: seq<Span>)
    requires Spaced(list) && item.start <= item.end + 1
    ensures Spaced(out) && PlusItem(out, list, item)
  {
    var s: nat, e: nat := item.start, item.end;
    out := [];
    var placed := false;
    var i := 0;
    InsertStart(list, item);
    while i < |list|
      invariant 0 <= i <= |list| && Inserting(out, Span(s, e), placed, list, i, item)
    {
      var x := list[i];
      ghost var before, cur, was := out, Span(s, e), placed;
      if x.end + 1 < s {
        out := out + [x];
      } else if e + 1 < x.start {
        if !placed {
          out := out + [Span(s, e)];
          placed := true;
        }
        out := out + [x];
      } else {
        s := if s <= x.start then s else x.start;
        e := Max(e, x.end);
      }
      InsertStep(before, cur, was, list, i, item, out, Span(s, e), placed);
      i := i + 1;
    }
    TakeAll(list, i);
    if !placed { out := out + [Span(s, e)]; }
  }

  /** Looks through a sorted list only as far as it has to. */
  method IsCovered(list: seq<Span>, target: Span) returns (yes: bool)
    requires Spaced(list)
    ensures yes <==> Contained(target, list)
    ensures target.start <= target.end ==> (yes <==> AllCovered(target, list))
  {
    if target.start <= target.end { ContainedIffCovered(target, list); }
    var i := 0;
    while i < |list|
      invariant 0 <= i <= |list| && !Contained(target, list[..i])
    {
      var x := list[i];
      if x.start <= target.start && target.end <= x.end {
        assert x in list;
        return true;
      }
      if x.start > target.start {
        NoneLater(list, i, target);
        return false;
      }
      assert list[..i + 1] == list[..i] + [x];
      i := i + 1;
    }
    TakeAll(list, i);
    return false;
  }

  lemma NoneLater(list: seq<Span>, i: nat, target: Span)
    requires Spaced(list) && i < |list| && !Contained(target, list[..i]) && list[i].start > target.start
    ensures !Contained(target, list)
  {
    forall y <- list ensures !(y.start <= target.start && target.end <= y.end) {
      var j :| 0 <= j < |list| && list[j] == y;
      if j < i {
        assert list[..i][j] == y && y in list[..i];
      } else if i < j {
        EndsGrow(list, i, j);
      }
    }
  }

  // ---------- One group of reads ----------

  datatype Kind = Explicit | Open | Default | Other

  datatype Call = Call(kind: Kind, start: Option<nat>, end: Option<nat>,
                       argTokens: nat, resultTokens: nat, tokenPerLine: real)

  datatype Config = Config(page: nat, maxLines: nat, leading: nat, trailing: nat)

  /** What the parser of selectors guarantees of an explicit range. */
  predicate WellFormed(c: Call) {
    c.kind == Explicit && c.start.Some? && c.end.Some? ==> c.start.value <= c.end.value
  }

  function Requested(c: Call, cfg: Config): (r: Option<Span>)
    requires WellFormed(c) && cfg.page >= 1
    ensures r.Some? ==> r.value.start <= r.value.end
  {
    match c.kind
    case Explicit => if c.start.Some? && c.end.Some? then Some(Span(c.start.value, c.end.value)) else None
    case Open => if c.start.Some? then Some(Span(c.start.value, c.start.value + cfg.page - 1)) else None
    case Default => Some(Span(1, cfg.page))
    case Other => None
  }

  function FirstLine(s: nat, cfg: Config): nat {
    if s > 1 && s - cfg.leading > 1 then s - cfg.leading else 1
  }

  function DeliveredRange(c: Call, cfg: Config): (r: Option<Span>)
    requires WellFormed(c) && cfg.page >= 1
    ensures r.Some? <==> Requested(c, cfg).Some?
    ensures r.Some? ==> 1 <= r.value.start <= r.value.end + 1
  {
    match Requested(c, cfg)
    case None => None
    case Some(x) =>
      var start := if c.kind == Default then 1 else FirstLine(x.start, cfg);
      var wanted := match c.kind
        case Explicit => x.end - x.start + 1 + (x.start - start) + cfg.trailing
        case Open => cfg.page + (x.start - start)
        case _ => cfg.page;
      Some(Span(start, start + Min(wanted, cfg.maxLines) - 1))
  }

  const MAX_BYTES := 50 * 1024

  function LengthOf(x: Span): nat
    requires x.start <= x.end + 1
  {
    x.end - x.start + 1
  }

  function LineTokens(c: Call, x: Span): real
    requires x.start <= x.end + 1
  {
    c.tokenPerLine * LengthOf(x) as real
  }

  function ByteBudget(lines: nat): nat {
    Max(MAX_BYTES, lines * 512)
  }

  /** The call's lines would come to more bytes than it may have. */
  predicate BytesLimited(c: Call, cfg: Config)
    requires WellFormed(c) && cfg.page >= 1
  {
    var x := DeliveredRange(c, cfg);
    x.Some? && LineTokens(c, x.value) * 4.0 > ByteBudget(LengthOf(x.value)) as real
  }

  function CallCost(c: Call, cfg: Config): real
    requires WellFormed(c) && cfg.page >= 1
  {
    match DeliveredRange(c, cfg)
    case None => (c.argTokens + c.resultTokens) as real
    case Some(x) =>
      c.argTokens as real + if BytesLimited(c, cfg) then ByteBudget(LengthOf(x)) as real / 4.0 else LineTokens(c, x)
  }

  // ---------- What a call delivers and costs ----------

  /** The lines a bounded call asks for, kind by kind. */
  predicate Bounds(c: Call, cfg: Config, first: nat, last: int) {
    match c.kind
    case Explicit => c.start == Some(first) && c.end.Some? && last == c.end.value
    case Open => c.start == Some(first) && last - first + 1 == cfg.page
    case Default => first == 1 && last == cfg.page
    case Other => false
  }

  /** Lines it could be given: those it asks for, some before them, and after an explicit range some
      after it. */
  predicate Near(c: Call, cfg: Config, first: nat, last: int, n: nat) {
    n >= 1 && n + cfg.leading >= first && n <= last + if c.kind == Explicit then cfg.trailing else 0
  }

  /** Of those it is given the first, up to the limit on lines. */
  lemma DeliveredIsNear(c: Call, cfg: Config, first: nat, last: int, n: nat)
    requires WellFormed(c) && cfg.page >= 1 && Bounds(c, cfg, first, last)
    ensures DeliveredRange(c, cfg).Some?
    ensures Hides(DeliveredRange(c, cfg).value, n)
       <==> Near(c, cfg, first, last, n)
            && forall m: nat :: m <= n && Near(c, cfg, first, last, m) ==> n - m < cfg.maxLines
  {
    var d := DeliveredRange(c, cfg).value;
    if Near(c, cfg, first, last, n) {
      assert Near(c, cfg, first, last, d.start);
      assert forall m: nat :: m <= n && Near(c, cfg, first, last, m) ==> d.start <= m;
    }
  }

  /** Only calls without bounds deliver no range. */
  lemma BoundedIffDelivered(c: Call, cfg: Config)
    requires WellFormed(c) && cfg.page >= 1
    ensures DeliveredRange(c, cfg).Some? <==> exists first: nat, last :: Bounds(c, cfg, first, last)
  {
    if Requested(c, cfg).Some? {
      assert Bounds(c, cfg, Requested(c, cfg).value.start, Requested(c, cfg).value.end);
    }
  }

  /** Besides its arguments a call pays for its lines, but for no more than 50 KiB or 512 bytes a
      line, at four bytes a token; one that delivers no range pays for its result. */
  lemma CostIsLeast(c: Call, cfg: Config)
    requires WellFormed(c) && cfg.page >= 1
    ensures var x, paid := DeliveredRange(c, cfg), CallCost(c, cfg) - c.argTokens as real;
            if x.None? then paid == c.resultTokens as real
            else
              var lines := x.value.end - x.value.start + 1;
              var full, most := c.tokenPerLine * lines as real, if lines <= 100 then 51200 else 512 * lines;
              paid <= full && 4.0 * paid <= most as real && (paid == full || 4.0 * paid == most as real)
  {
  }

  /** How many lines an explicit range names; line 0 counts as not given. */
  function NamedLines(x: Span): nat {
    var first := if x.start != 0 then x.start else 1;
    Max(1, (if x.end != 0 then x.end else first) - first + 1)
  }

  /** The limit on lines cuts an explicit range short. */
  predicate Truncates(c: Call, cfg: Config)
    requires WellFormed(c) && cfg.page >= 1
  {
    && c.kind == Explicit && Requested(c, cfg).Some?
    && LengthOf(DeliveredRange(c, cfg).value) >= cfg.maxLines
    && NamedLines(Requested(c, cfg).value) + cfg.leading + cfg.trailing > cfg.maxLines
  }

  /** A range is cut short if, with the lines there are around it, it reaches the limit, and with
      all the lines asked for around it would pass it. */
  lemma TruncatesIff(c: Call, cfg: Config, first: nat, last: nat)
    requires cfg.page >= 1 && c.kind == Explicit && c.start == Some(first) && c.end == Some(last) && 1 <= first <= last
    ensures var named, above := last - first + 1, Min(cfg.leading, first - 1);
            Truncates(c, cfg) <==> named + above + cfg.trailing >= cfg.maxLines
                                   && named + cfg.leading + cfg.trailing > cfg.maxLines
  {
  }

  ghost predicate Good(group: seq<Call>, cfg: Config) {
    cfg.page >= 1 && forall i :: 0 <= i < |group| ==> WellFormed(group[i])
  }

  /** The ranges already delivered before call `i`. */
  ghost function Seen(group: seq<Call>, i: nat, cfg: Config): seq<Span>
    requires Good(group, cfg) && i <= |group|
    decreases i, 0
  {
    if i == 0 then []
    else if Requested(group[i - 1], cfg).Some? && !Skips(group, i - 1, cfg)
    then Seen(group, i - 1, cfg) + [DeliveredRange(group[i - 1], cfg).value]
    else Seen(group, i - 1, cfg)
  }

  /** Call `i` is bounded, and every line it asks for has been delivered. */
  ghost predicate Skips(group: seq<Call>, i: nat, cfg: Config)
    requires Good(group, cfg) && i < |group|
    decreases i, 1
  {
    Requested(group[i], cfg).Some? && AllCovered(Requested(group[i], cfg).value, Seen(group, i, cfg))
  }

  ghost function Skipped(group: seq<Call>, i: nat, cfg: Config): (n: nat)
    requires Good(group, cfg) && i <= |group|
    ensures n <= i
  {
    if i == 0 then 0 else Skipped(group, i - 1, cfg) + if Skips(group, i - 1, cfg) then 1 else 0
  }

  ghost function Tokens(group: seq<Call>, i: nat, cfg: Config): real
    requires Good(group, cfg) && i <= |group|
  {
    if i == 0 then 0.0
    else Tokens(group, i - 1, cfg) + if Skips(group, i - 1, cfg) then 0.0 else CallCost(group[i - 1], cfg)
  }

  lemma {:induction false} FirstNotSkipped(group: seq<Call>, cfg: Config)
    requires Good(group, cfg) && group != []
    ensures !Skips(group, 0, cfg)
  {
    if Requested(group[0], cfg).Some? {
      var x := Requested(group[0], cfg).value;
      assert Hides(x, x.start) && !Covers([], x.start);
    }
  }

  /** Everything asked for later in the group is in what the first call delivered. */
  ghost predicate FirstCovers(group: seq<Call>, cfg: Config)
    requires Good(group, cfg) && group != []
  {
    forall i | 0 < i < |group| :: InFirst(group, i, cfg)
  }

  ghost predicate InFirst(group: seq<Call>, i: nat, cfg: Config)
    requires Good(group, cfg) && 0 < i < |group|
  {
    Requested(group[i], cfg).Some? ==>
      DeliveredRange(group[0], cfg).Some?
      && AllCovered(Requested(group[i], cfg).value, [DeliveredRange(group[0], cfg).value])
  }

  lemma {:induction false} FirstStays(group: seq<Call>, i: nat, cfg: Config, n: nat)
    requires Good(group, cfg) && 0 < i <= |group| && Requested(group[0], cfg).Some?
    requires Hides(DeliveredRange(group[0], cfg).value, n)
    ensures Covers(Seen(group, i, cfg), n)
    decreases i
  {
    FirstNotSkipped(group, cfg);
    if i == 1 {
      assert Seen(group, 0, cfg) == [];
      CoversMore([], DeliveredRange(group[0], cfg).value, n);
    } else {
      FirstStays(group, i - 1, cfg, n);
      if Requested(group[i - 1], cfg).Some? {
        CoversMore(Seen(group, i - 1, cfg), DeliveredRange(group[i - 1], cfg).value, n);
      }
    }
  }

  lemma {:induction false} OnlyFirst(group: seq<Call>, i: nat, cfg: Config)
    requires Good(group, cfg) && 0 < i <= |group| && Requested(group[0], cfg).Some?
    requires forall j | 0 < j < |group| :: Requested(group[j], cfg).Some? ==> Skips(group, j, cfg)
    ensures Seen(group, i, cfg) == [DeliveredRange(group[0], cfg).value]
    decreases i
  {
    FirstNotSkipped(group, cfg);
    if i == 1 { assert Seen(group, 0, cfg) == []; } else { OnlyFirst(group, i - 1, cfg); }
  }

  /** The first call covers the rest of the group if and only if no bounded call after it is
      paid for. */
  lemma {:induction false} FirstCoversIffRestSkipped(group: seq<Call>, cfg: Config)
    requires Good(group, cfg) && group != [] && Requested(group[0], cfg).Some?
    ensures FirstCovers(group, cfg)
       <==> forall j | 0 < j < |group| :: Requested(group[j], cfg).Some? ==> Skips(group, j, cfg)
  {
    var d := DeliveredRange(group[0], cfg).value;
    if FirstCovers(group, cfg) {
      forall j | 0 < j < |group| && Requested(group[j], cfg).Some? ensures Skips(group, j, cfg) {
        assert InFirst(group, j, cfg);
        forall n: nat | Hides(Requested(group[j], cfg).value, n) ensures Covers(Seen(group, j, cfg), n) {
          assert Covers([d], n);
          FirstStays(group, j, cfg, n);
        }
      }
    }
    if forall j | 0 < j < |group| :: Requested(group[j], cfg).Some? ==> Skips(group, j, cfg) {
      forall i | 0 < i < |group| ensures InFirst(group, i, cfg) {
        OnlyFirst(group, i, cfg);
      }
    }
  }

  // ---------- The replay ----------

  datatype Share = Share(calls: nat, skipped: nat, tokens: real)

  const NO_SHARE := Share(0, 0, 0.0)

  datatype Tally = Tally(total: Share, selector: Share, paged: Share, rawCalls: nat, truncations: nat, byteLimited: nat,
                         selectorGroups: nat, singleCallGroups: nat, coveredByFirst: nat)

  const NO_TALLY := Tally(NO_SHARE, NO_SHARE, NO_SHARE, 0, 0, 0, 0, 0, 0)

  function PlusShare(a: Share, b: Share): Share {
    Share(a.calls + b.calls, a.skipped + b.skipped, a.tokens + b.tokens)
  }

  function Plus(a: Tally, b: Tally): Tally {
    Tally(PlusShare(a.total, b.total), PlusShare(a.selector, b.selector), PlusShare(a.paged, b.paged),
          a.rawCalls + b.rawCalls, a.truncations + b.truncations, a.byteLimited + b.byteLimited,
          a.selectorGroups + b.selectorGroups, a.singleCallGroups + b.singleCallGroups, a.coveredByFirst + b.coveredByFirst)
  }

  predicate SelectorFirst(group: seq<Call>)
    requires group != []
  {
    group[0].kind == Explicit || group[0].kind == Open
  }

  /** How many of the first `i` calls that are paid for have a property. */
  ghost function PaidWith(group: seq<Call>, i: nat, cfg: Config, has: Call -> bool): nat
    requires Good(group, cfg) && i <= |group|
  {
    if i == 0 then 0
    else PaidWith(group, i - 1, cfg, has) + if !Skips(group, i - 1, cfg) && has(group[i - 1]) then 1 else 0
  }

  function Unbounded(cfg: Config): Call -> bool {
    (c: Call) => WellFormed(c) && cfg.page >= 1 && Requested(c, cfg).None?
  }

  function Truncated(cfg: Config): Call -> bool {
    (c: Call) => WellFormed(c) && cfg.page >= 1 && Truncates(c, cfg)
  }

  function Limited(cfg: Config): Call -> bool {
    (c: Call) => WellFormed(c) && cfg.page >= 1 && BytesLimited(c, cfg)
  }

  /** What the first `i` calls of a group come to. */
  ghost function CallsShare(group: seq<Call>, i: nat, cfg: Config): Share
    requires Good(group, cfg) && i <= |group|
  {
    Share(i - Skipped(group, i, cfg), Skipped(group, i, cfg), Tokens(group, i, cfg))
  }

  /** The same, by the kind of the group, with the counts of single calls. */
  ghost function CallsTally(group: seq<Call>, i: nat, cfg: Config): Tally
    requires Good(group, cfg) && i <= |group| && group != []
  {
    var share := CallsShare(group, i, cfg);
    Tally(share, if SelectorFirst(group) then share else NO_SHARE, if group[0].kind == Default then share else NO_SHARE,
          PaidWith(group, i, cfg, Unbounded(cfg)), PaidWith(group, i, cfg, Truncated(cfg)),
          PaidWith(group, i, cfg, Limited(cfg)), 0, 0, 0)
  }

  ghost predicate CoveredByFirst(group: seq<Call>, cfg: Config)
    requires Good(group, cfg) && group != []
  {
    |group| == 1 || (Requested(group[0], cfg).Some? && FirstCovers(group, cfg))
  }

  /** What a group comes to. */
  ghost function GroupTally(group: seq<Call>, cfg: Config): Tally
    requires Good(group, cfg) && group != []
  {
    var selector := SelectorFirst(group);
    CallsTally(group, |group|, cfg).(
      selectorGroups := if selector then 1 else 0,
      singleCallGroups := if selector && |group| == 1 then 1 else 0,
      coveredByFirst := if selector && CoveredByFirst(group, cfg) then 1 else 0)
  }

  method CheckFirst(group: seq<Call>, delivered: Span, cfg: Config) returns (all: bool)
    requires Good(group, cfg) && group != [] && DeliveredRange(group[0], cfg) == Some(delivered)
    ensures all <==> FirstCovers(group, cfg)
  {
    var i := 1;
    while i < |group|
      invariant 1 <= i <= |group| && forall j | 0 < j < i :: InFirst(group, j, cfg)
    {
      var later := Requested(group[i], cfg);
      if later.Some? {
        var covered := IsCovered([delivered], later.value);
        if !covered {
          assert !InFirst(group, i, cfg);
          return false;
        }
      }
      i := i + 1;
    }
    return true;
  }

  lemma SeenStep(group: seq<Call>, i: nat, cfg: Config, coverage: seq<Span>, after: seq<Span>)
    requires Good(group, cfg) && i < |group| && SameCover(coverage, Seen(group, i, cfg))
    requires Requested(group[i], cfg).Some? && !Skips(group, i, cfg)
    requires PlusItem(after, coverage, DeliveredRange(group[i], cfg).value)
    ensures SameCover(after, Seen(group, i + 1, cfg))
  {
    forall n: nat ensures Covers(after, n) <==> Covers(Seen(group, i + 1, cfg), n) {
      CoversMore(Seen(group, i, cfg), DeliveredRange(group[i], cfg).value, n);
    }
  }

  /** A call that is charged: to the total, and to the kind of group it is in. */
  function Charge(t: Tally, group: seq<Call>, cost: real): Tally
    requires group != []
  {
    var one := Share(1, 0, cost);
    t.(total := PlusShare(t.total, one),
       selector := if SelectorFirst(group) then PlusShare(t.selector, one) else t.selector,
       paged := if group[0].kind == Default then PlusShare(t.paged, one) else t.paged)
  }

  function PassOver(t: Tally, group: seq<Call>): Tally
    requires group != []
  {
    var one := Share(0, 1, 0.0);
    t.(total := PlusShare(t.total, one),
       selector := if SelectorFirst(group) then PlusShare(t.selector, one) else t.selector,
       paged := if group[0].kind == Default then PlusShare(t.paged, one) else t.paged)
  }

  /** What call `i` does to the tally, depending on whether it is skipped. */
  function CallTally(t: Tally, group: seq<Call>, i: nat, cfg: Config, skips: bool): Tally
    requires cfg.page >= 1 && i < |group| && WellFormed(group[i])
  {
    if skips then PassOver(t, group)
    else
      var c := group[i];
      Charge(t, group, CallCost(c, cfg)).(
        rawCalls := t.rawCalls + if Requested(c, cfg).None? then 1 else 0,
        truncations := t.truncations + if Truncates(c, cfg) then 1 else 0,
        byteLimited := t.byteLimited + if BytesLimited(c, cfg) then 1 else 0)
  }

  lemma CallCounted(before: Tally, group: seq<Call>, i: nat, cfg: Config)
    requires Good(group, cfg) && i < |group|
    ensures CallTally(Plus(before, CallsTally(group, i, cfg)), group, i, cfg, Skips(group, i, cfg))
         == Plus(before, CallsTally(group, i + 1, cfg))
  {
  }

  method Price(c: Call, cfg: Config, delivered: Span) returns (cost: real, limited: bool)
    requires WellFormed(c) && cfg.page >= 1 && DeliveredRange(c, cfg) == Some(delivered)
    ensures cost == CallCost(c, cfg) && limited == BytesLimited(c, cfg)
  {
    var byteBudget, lineTokens := ByteBudget(LengthOf(delivered)) as real, LineTokens(c, delivered);
    limited := lineTokens * 4.0 > byteBudget;
    if limited { lineTokens := byteBudget / 4.0; }
    cost := c.argTokens as real + lineTokens;
  }

  /** A bounded call that is paid for. */
  method PayBounded(t0: Tally, group: seq<Call>, i: nat, cfg: Config, delivered: Span) returns (t: Tally)
    requires Good(group, cfg) && i < |group| && DeliveredRange(group[i], cfg) == Some(delivered)
    ensures t == CallTally(t0, group, i, cfg, false)
  {
    var c := group[i];
    t := t0;
    var lines := LengthOf(delivered);
    if lines >= cfg.maxLines && c.kind == Explicit {
      if NamedLines(Requested(c, cfg).value) + cfg.leading + cfg.trailing > cfg.maxLines {
        t := t.(truncations := t.truncations + 1);
      }
    }
    var cost, limited := Price(c, cfg, delivered);
    if limited { t := t.(byteLimited := t.byteLimited + 1); }
    t := Charge(t, group, cost);
  }

  /** One call: skipped exactly when everything it asks for has been delivered, else charged. */
  method ReplayCall(group: seq<Call>, i: nat, cfg: Config, t0: Tally, coverage0: seq<Span>)
    returns (t: Tally, coverage: seq<Span>)
    requires Good(group, cfg) && i < |group| && Spaced(coverage0) && SameCover(coverage0, Seen(group, i, cfg))
    ensures t == CallTally(t0, group, i, cfg, Skips(group, i, cfg))
    ensures Spaced(coverage) && SameCover(coverage, Seen(group, i + 1, cfg))
  {
    var c := group[i];
    coverage := coverage0;
    var requested, delivered := Requested(c, cfg), DeliveredRange(c, cfg);
    t := t0;
    if requested.None? {
      t := Charge(t, group, (c.argTokens + c.resultTokens) as real);
      t := t.(rawCalls := t.rawCalls + 1);
      return;
    }
    if i > 0 {
      var covered := IsCovered(coverage0, requested.value);
      CoverSameAll(requested.value, coverage0, Seen(group, i, cfg));
      if covered {
        t := PassOver(t, group);
        return;
      }
    } else {
      FirstNotSkipped(group, cfg);
    }
    t := PayBounded(t0, group, i, cfg, delivered.value);
    coverage := AddInterval(coverage0, delivered.value);
    SeenStep(group, i, cfg, coverage0, coverage);
  }

  /** Where the loop over a group's calls is. */
  ghost predicate Replayed(group: seq<Call>, i: nat, cfg: Config, start: Tally, t: Tally, coverage: seq<Span>)
    requires Good(group, cfg) && i <= |group| && group != []
  {
    t == Plus(start, CallsTally(group, i, cfg)) && Spaced(coverage) && SameCover(coverage, Seen(group, i, cfg))
  }

  /** All calls of a group in order. */
  method ReplayGroup(group: seq<Call>, cfg: Config, t0: Tally) returns (t: Tally)
    requires Good(group, cfg) && group != []
    ensures t == Plus(t0, GroupTally(group, cfg))
  {
    t := t0;
    var selectorFirst := SelectorFirst(group);
    if selectorFirst {
      t := t.(selectorGroups := t.selectorGroups + 1);
      if |group| == 1 { t := t.(singleCallGroups := t.singleCallGroups + 1); }
    }
    ghost var start := t;
    var coverage: seq<Span> := [];
    var coveredAllByFirst := false;
    var i := 0;
    while i < |group|
      invariant 0 <= i <= |group| && Replayed(group, i, cfg, start, t, coverage)
      invariant coveredAllByFirst
           <==> i > 0 && selectorFirst && Requested(group[0], cfg).Some? && FirstCovers(group, cfg)
    {
      CallCounted(start, group, i, cfg);
      t, coverage := ReplayCall(group, i, cfg, t, coverage);
      if i == 0 && selectorFirst && Requested(group[0], cfg).Some? {
        coveredAllByFirst := CheckFirst(group, DeliveredRange(group[0], cfg).value, cfg);
      }
      i := i + 1;
    }
    if selectorFirst && (coveredAllByFirst || |group| == 1) {
      t := t.(coveredByFirst := t.coveredByFirst + 1);
    }
  }

  ghost predicate AllGood(groups: seq<seq<Call>>, cfg: Config) {
    forall g :: 0 <= g < |groups| ==> groups[g] != [] && Good(groups[g], cfg)
  }

  function Reads(groups: seq<seq<Call>>): nat {
    if groups == [] then 0 else Reads(groups[..|groups| - 1]) + |groups[|groups| - 1]|
  }

  /** What all groups come to, each on its own. */
  ghost function AllTally(groups: seq<seq<Call>>, cfg: Config): Tally
    requires AllGood(groups, cfg)
  {
    if groups == [] then NO_TALLY
    else Plus(AllTally(groups[..|groups| - 1], cfg), GroupTally(groups[|groups| - 1], cfg))
  }

  /** Every read is either charged or skipped, and counted once; the shares of the two kinds of
      group are within the total, and the counts of groups in one another. */
  lemma {:induction false} EveryReadOnce(groups: seq<seq<Call>>, cfg: Config)
    requires AllGood(groups, cfg)
    ensures var t := AllTally(groups, cfg);
            && t.total.calls + t.total.skipped == Reads(groups)
            && t.selector.calls + t.paged.calls <= t.total.calls
            && t.selector.skipped + t.paged.skipped <= t.total.skipped
            && t.rawCalls <= t.total.calls && t.truncations + t.rawCalls <= t.total.calls
            && t.singleCallGroups <= t.coveredByFirst <= t.selectorGroups <= |groups|
    decreases groups
  {
    if groups != [] {
      var g := groups[|groups| - 1];
      EveryReadOnce(groups[..|groups| - 1], cfg);
      RawOrTruncated(g, |g|, cfg);
    }
  }

  lemma {:induction false} RawOrTruncated(group: seq<Call>, i: nat, cfg: Config)
    requires Good(group, cfg) && i <= |group|
    ensures PaidWith(group, i, cfg, Unbounded(cfg)) + PaidWith(group, i, cfg, Truncated(cfg)) <= i - Skipped(group, i, cfg)
    decreases i
  {
    if i > 0 { RawOrTruncated(group, i - 1, cfg); }
  }

  /** All groups, none knowing of the others. */
  method Replay(groups: seq<seq<Call>>, cfg: Config) returns (t: Tally)
    requires AllGood(groups, cfg)
    ensures t == AllTally(groups, cfg)
    ensures t.total.calls + t.total.skipped == Reads(groups)
  {
    t := NO_TALLY;
    var i := 0;
    while i < |groups|
      invariant 0 <= i <= |groups| && t == AllTally(groups[..i], cfg)
    {
      TakeMore(groups, i);
      t := ReplayGroup(groups[i], cfg, t);
      i := i + 1;
    }
    TakeAll(groups, i);
    EveryReadOnce(groups, cfg);
  }
}

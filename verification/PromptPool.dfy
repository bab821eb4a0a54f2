/** The worker pools of scripts/rewrite-system-prompt.ts and scripts/session-stats/audit.ts:
    workers that take the next index, call out, and store what comes back. Between two steps of
    one worker any steps of the others may happen. */
module PromptPool {
  import opened Common

  datatype Worker = Idle | Busy(index: nat) | Gone

  /** `started` lists the calls made so far, oldest first. */
  datatype Pool<R> = Pool(next: nat, workers: seq<Worker>, results: map<nat, R>, started: seq<nat>)

  datatype Event<R> = Claim(worker: nat) | Finish(worker: nat, value: R)

  function Start<R>(width: nat): Pool<R> {
    Pool(0, seq(width, i => Idle), map[], [])
  }

  predicate Enabled<R>(p: Pool<R>, e: Event<R>) {
    match e
    case Claim(w) => w < |p.workers| && p.workers[w].Idle?
    case Finish(w, _) => w < |p.workers| && p.workers[w].Busy?
  }

  /** One step of a pool over `n` items. */
  function Apply<R>(p: Pool<R>, e: Event<R>, n: nat): Pool<R>
    requires Enabled(p, e)
  {
    match e
    case Claim(w) =>
      if p.next < n
      then Pool(p.next + 1, p.workers[w := Busy(p.next)], p.results, p.started + [p.next])
      else Pool(p.next + 1, p.workers[w := Gone], p.results, p.started)
    case Finish(w, value) =>
      Pool(p.next, p.workers[w := Idle], p.results[p.workers[w].index := value], p.started)
  }

  /** A run: every event is enabled when it happens, and calls return what they may return. */
  ghost predicate Run<R>(events: seq<Event<R>>, width: nat, n: nat, may: (nat, R) -> bool)
    decreases |events|, 0
  {
    if events == [] then true
    else
      var k := |events| - 1;
      && Run(events[..k], width, n, may)
      && var p := After(events[..k], width, n, may);
         Enabled(p, events[k]) && (events[k].Finish? ==> may(p.workers[events[k].worker].index, events[k].value))
  }

  ghost function After<R>(events: seq<Event<R>>, width: nat, n: nat, may: (nat, R) -> bool): Pool<R>
    requires Run(events, width, n, may)
    decreases |events|, 1
  {
    if events == [] then Start(width)
    else
      var k := |events| - 1;
      Apply(After(events[..k], width, n, may), events[k], n)
  }

  ghost predicate InFlight<R>(p: Pool<R>, i: nat) {
    exists w :: 0 <= w < |p.workers| && p.workers[w] == Busy(i)
  }

  ghost predicate OneEach<R>(p: Pool<R>) {
    forall v, w :: 0 <= v < w < |p.workers| && p.workers[v].Busy? ==> p.workers[v] != p.workers[w]
  }

  /** Calls go out once each, in order; each is in flight with one worker or has come back. */
  ghost predicate Sound<R>(p: Pool<R>, width: nat, n: nat, may: (nat, R) -> bool) {
    && |p.workers| == width
    && p.started == seq(Min(p.next, n), i => i)
    && OneEach(p)
    && (forall i: nat :: InFlight(p, i) ==> i < Min(p.next, n) && i !in p.results)
    && (forall i: nat :: i < Min(p.next, n) && i !in p.results ==> InFlight(p, i))
    && (forall i <- p.results :: i < Min(p.next, n) && may(i, p.results[i]))
    && ((exists w :: 0 <= w < width && p.workers[w].Gone?) ==> p.next >= n)
  }

  lemma StartSound<R>(width: nat, n: nat, may: (nat, R) -> bool)
    ensures Sound(Start<R>(width), width, n, may)
  {
  }

  lemma FlightAfter<R>(p: Pool<R>, w: nat, x: Worker, q: Pool<R>, i: nat)
    requires w < |p.workers| && q.workers == p.workers[w := x] && OneEach(p)
    ensures InFlight(q, i) <==> x == Busy(i) || (InFlight(p, i) && p.workers[w] != Busy(i))
  {
    if x == Busy(i) { assert q.workers[w] == Busy(i); }
    if InFlight(p, i) && p.workers[w] != Busy(i) {
      var v :| 0 <= v < |p.workers| && p.workers[v] == Busy(i);
      assert q.workers[v] == Busy(i);
    }
    if InFlight(q, i) && x != Busy(i) {
      var v :| 0 <= v < |q.workers| && q.workers[v] == Busy(i);
      assert v != w && p.workers[v] == Busy(i);
    }
  }

  lemma ClaimSound<R>(p: Pool<R>, w: nat, width: nat, n: nat, may: (nat, R) -> bool)
    requires Sound(p, width, n, may) && Enabled(p, Claim(w))
    ensures Sound(Apply(p, Claim(w), n), width, n, may)
  {
    var q := Apply(p, Claim(w), n);
    forall i: nat ensures InFlight(q, i) <==> InFlight(p, i) || (p.next < n && i == p.next) {
      FlightAfter(p, w, q.workers[w], q, i);
    }
    if p.next < n {
      forall v | 0 <= v < |p.workers| ensures p.workers[v] != Busy(p.next) {
        if p.workers[v] == Busy(p.next) { assert InFlight(p, p.next); }
      }
    }
  }

  lemma FinishSound<R>(p: Pool<R>, w: nat, value: R, width: nat, n: nat, may: (nat, R) -> bool)
    requires Sound(p, width, n, may) && Enabled(p, Finish(w, value)) && may(p.workers[w].index, value)
    ensures Sound(Apply(p, Finish(w, value), n), width, n, may)
  {
    var q := Apply(p, Finish(w, value), n);
    var back := p.workers[w].index;
    assert InFlight(p, back);
    forall i: nat ensures InFlight(q, i) <==> InFlight(p, i) && i != back {
      FlightAfter(p, w, Idle, q, i);
    }
  }

  lemma {:induction false} RunSound<R>(events: seq<Event<R>>, width: nat, n: nat, may: (nat, R) -> bool)
    requires Run(events, width, n, may)
    ensures Sound(After(events, width, n, may), width, n, may)
    decreases |events|
  {
    if events == [] {
      StartSound(width, n, may);
    } else {
      var k := |events| - 1;
      RunSound(events[..k], width, n, may);
      var p := After(events[..k], width, n, may);
      match events[k]
      case Claim(w) => ClaimSound(p, w, width, n, may);
      case Finish(w, value) => FinishSound(p, w, value, width, n, may);
    }
  }

  ghost predicate Over<R>(p: Pool<R>) {
    forall w :: 0 <= w < |p.workers| ==> p.workers[w].Gone?
  }

  /** When all workers have gone, every item has been called once, in order, and has its
      result; unless there was no worker to begin with. */
  lemma {:induction false} PoolComplete<R>(events: seq<Event<R>>, width: nat, n: nat, may: (nat, R) -> bool)
    requires Run(events, width, n, may) && Over(After(events, width, n, may))
    ensures var p := After(events, width, n, may);
            && ((forall i: nat :: i in p.results <==> i < n) <==> width > 0 || n == 0)
            && (width > 0 ==> p.started == seq(n, i => i))
            && (forall i <- p.results :: may(i, p.results[i]))
  {
    RunSound(events, width, n, may);
    var p := After(events, width, n, may);
    if width > 0 {
      assert p.workers[0].Gone?;
      forall i: nat ensures i in p.results <==> i < n {
        assert !InFlight(p, i);
      }
    } else {
      NobodyWorks(events, n, may);
      if n > 0 { assert 0 !in p.results; }
    }
  }

  lemma {:induction false} NobodyWorks<R>(events: seq<Event<R>>, n: nat, may: (nat, R) -> bool)
    requires Run(events, 0, n, may)
    ensures After(events, 0, n, may) == Start(0)
    decreases |events|
  {
    if events != [] { NobodyWorks(events[..|events| - 1], n, may); }
  }

  // ---------- Every run ends ----------

  function Weight(w: Worker): nat {
    match w
    case Idle => 1
    case Busy(_) => 2
    case Gone => 0
  }

  function Weights(ws: seq<Worker>): nat {
    if ws == [] then 0 else Weight(ws[0]) + Weights(ws[1..])
  }

  lemma {:induction false} WeightsUpdate(ws: seq<Worker>, w: nat, x: Worker)
    requires w < |ws|
    ensures Weights(ws[w := x]) == Weights(ws) - Weight(ws[w]) + Weight(x)
    decreases ws
  {
    if w == 0 {
      assert ws[w := x][1..] == ws[1..];
    } else {
      WeightsUpdate(ws[1..], w - 1, x);
      assert ws[w := x][1..] == ws[1..][w - 1 := x];
    }
  }

  lemma {:induction false} WeightsIdle(width: nat)
    ensures Weights(seq(width, i => Idle)) == width
    decreases width
  {
    if width > 0 {
      WeightsIdle(width - 1);
      assert seq(width, i => Idle)[1..] == seq(width - 1, i => Idle);
    }
  }

  function ToDo<R>(p: Pool<R>, n: nat): nat {
    3 * (n - Min(p.next, n)) + Weights(p.workers)
  }

  lemma {:induction false} RunsAreShort<R>(events: seq<Event<R>>, width: nat, n: nat, may: (nat, R) -> bool)
    requires Run(events, width, n, may)
    ensures |events| + ToDo(After(events, width, n, may), n) <= 3 * n + width
    decreases |events|
  {
    if events == [] {
      WeightsIdle(width);
    } else {
      var k := |events| - 1;
      RunsAreShort(events[..k], width, n, may);
      var p := After(events[..k], width, n, may);
      var q := After(events, width, n, may);
      WeightsUpdate(p.workers, events[k].worker, q.workers[events[k].worker]);
    }
  }

  /** A pool that is not over can always take a step: nothing blocks, and by `RunsAreShort` the
      steps run out. */
  lemma PoolNeverStuck<R(!new)>(p: Pool<R>, value: R)
    requires !Over(p)
    ensures exists e :: Enabled(p, e) && (e.Finish? ==> e.value == value)
  {
    var w :| 0 <= w < |p.workers| && !p.workers[w].Gone?;
    if p.workers[w].Idle? {
      assert Enabled(p, Claim(w));
    } else {
      assert Enabled(p, Finish(w, value));
    }
  }

  /** How many workers the two pools start with. */
  function RewriteWidth(limit: int, n: nat): (width: nat)
    ensures 1 <= width && (limit >= 1 ==> width <= limit)
  {
    if limit < n then (if limit >= 1 then limit else 1) else (if n >= 1 then n else 1)
  }

  function AuditWidth(limit: int, n: nat): (width: nat)
    ensures width > 0 <==> limit >= 1 && n >= 1
  {
    if limit < n then (if limit >= 0 then limit else 0) else n
  }

  /** The audit's pool comes back with every result if and only if it may run at least one
      worker or has nothing to do. */
  lemma {:induction false} AuditPoolNeedsALimit<R>(events: seq<Event<R>>, limit: int, n: nat, may: (nat, R) -> bool)
    requires Run(events, AuditWidth(limit, n), n, may) && Over(After(events, AuditWidth(limit, n), n, may))
    ensures (forall i: nat :: i in After(events, AuditWidth(limit, n), n, may).results <==> i < n)
       <==> limit >= 1 || n == 0
  {
    PoolComplete(events, AuditWidth(limit, n), n, may);
  }
}

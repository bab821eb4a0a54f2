/** Building the replacement of one call in strict-effects mode: fresh names, hoisted
    arguments, renamed locals. The methods loop as the tool does; the functions beside them
    say what they compute. */
module InlineTransform {
  import opened Common
  import opened InlineSyntax
  import opened InlineSemantics
  import opened InlineText
  import opened InlineSubst
  import opened InlineNegate

  // ---------- Fresh names ----------

  function Digits(n: nat): string {
    (if n < 10 then "" else Digits(n / 10)) + [('0' as int + n % 10) as char]
  }

  function Candidate(base: string, i: nat): string {
    base + "_" + Digits(i)
  }

  function DigitsValue(s: string): int {
    if s == "" then 0 else 10 * DigitsValue(s[..|s| - 1]) + (s[|s| - 1] as int - '0' as int)
  }

  lemma {:induction false} DigitsRoundTrip(n: nat)
    ensures DigitsValue(Digits(n)) == n
  {
    var s := Digits(n);
    assert s[..|s| - 1] == if n < 10 then "" else Digits(n / 10);
    if n >= 10 { DigitsRoundTrip(n / 10); }
  }

  lemma CandidateInjective(base: string, i: nat, j: nat)
    requires Candidate(base, i) == Candidate(base, j)
    ensures i == j
  {
    var p := |base + "_"|;
    assert Candidate(base, i)[p..] == Digits(i) && Candidate(base, j)[p..] == Digits(j);
    DigitsRoundTrip(i);
    DigitsRoundTrip(j);
  }

  /** If all candidates below `i` are taken, there are at least that many taken names. */
  lemma {:induction false} CandidatesRunOut(base: string, taken: set<string>, i: nat)
    requires i >= 2 && forall j :: 2 <= j < i ==> Candidate(base, j) in taken
    ensures i - 2 <= |taken|
    decreases i
  {
    if i > 2 {
      var last := Candidate(base, i - 1);
      forall j | 2 <= j < i - 1 ensures Candidate(base, j) in taken - {last} {
        if Candidate(base, j) == last { CandidateInjective(base, j, i - 1); }
      }
      CandidatesRunOut(base, taken - {last}, i - 1);
    }
  }

  /** The first untaken candidate from `i` on. */
  function FreshFrom(base: string, taken: set<string>, i: nat): (name: string)
    requires i >= 2 && forall j :: 2 <= j < i ==> Candidate(base, j) in taken
    ensures name !in taken
    decreases |taken| + 2 - i
  {
    if Candidate(base, i) !in taken then Candidate(base, i)
    else
      CandidatesRunOut(base, taken, i + 1);
      FreshFrom(base, taken, i + 1)
  }

  function Fresh(base: string, taken: set<string>): (name: string)
    ensures name !in taken
  {
    if base !in taken then base else FreshFrom(base, taken, 2)
  }

  /** The search ends for every set of taken names, with the base itself when it is free. */
  method FreshName(base: string, taken: set<string>) returns (name: string)
    ensures name !in taken
    ensures base !in taken ==> name == base
    ensures base in taken ==>
              exists i :: i >= 2 && name == Candidate(base, i) && forall j :: 2 <= j < i ==> Candidate(base, j) in taken
    ensures name == Fresh(base, taken)
  {
    if base !in taken { return base; }
    var i := 2;
    while Candidate(base, i) in taken
      invariant i >= 2 && forall j :: 2 <= j < i ==> Candidate(base, j) in taken
      invariant FreshFrom(base, taken, i) == FreshFrom(base, taken, 2)
      decreases |taken| + 2 - i
    {
      CandidatesRunOut(base, taken, i + 1);
      i := i + 1;
    }
    name := Candidate(base, i);
  }

  // ---------- Hoisting ----------

  function BodyFree(h: Helper): set<string> {
    ExprsNames(h.guards) + BlockFree(h.tail)
  }

  function Unwrap(e: Expr): Expr {
    if e.Paren? then Unwrap(e.e) else e
  }

  predicate IsLiteral(e: Expr) {
    e.Lit? && !e.v.Undefined?
  }

  /** `isPureExpr` in strict mode. */
  predicate IsPure(e: Expr) {
    match e
    case Lit(_) => true
    case Id(_) => true
    case Paren(x) => IsPure(x)
    case Not(x) => IsPure(x)
    case Bin(_, l, r) => IsPure(l) && IsPure(r)
    case Call(_, _) => false
    case Assign(_, _) => false
  }

  datatype Plan = Plan(prefix: seq<Stmt>, th: Subst, taken: set<string>)

  /** What parameter `i` contributes: its argument is evaluated once and in place, into a
      temporary if the parameter is used; only an unused literal is dropped. */
  function PlanStep(params: seq<string>, used: set<string>, args: seq<Expr>, i: nat, taken: set<string>): Plan
    requires i < |params|
  {
    var p := params[i];
    if p !in used then
      if i >= |args| then Plan([], map[], taken)
      else if !IsPure(args[i]) then Plan([ExprStmt(args[i])], map[], taken)
      else if !IsLiteral(Unwrap(args[i])) then Plan([ExprStmt(args[i])], map[], taken)
      else Plan([], map[], taken)
    else if i >= |args| then Plan([], map[p := Undef], taken)
    else
      var temp := Fresh("__inl_" + p, taken);
      Plan([Const(temp, args[i])], map[p := Temp(temp)], taken + {temp})
  }

  function Then(a: Plan, b: Plan): Plan {
    Plan(a.prefix + b.prefix, a.th + b.th, b.taken)
  }

  function PlanFrom(params: seq<string>, used: set<string>, args: seq<Expr>, i: nat, taken: set<string>): Plan
    requires i <= |params|
    decreases |params| - i
  {
    if i == |params| then Plan([], map[], taken)
    else
      var step := PlanStep(params, used, args, i, taken);
      var rest := PlanFrom(params, used, args, i + 1, step.taken);
      Then(step, rest)
  }

  /** Locals of a guardless tail, in order: kept when the name is free in the target block,
      renamed otherwise. */
  function RenameFrom(ss: seq<Stmt>, taken: set<string>): Subst {
    if ss == [] then map[]
    else if !ss[0].Const? then RenameFrom(ss[1..], taken)
    else
      var n := ss[0].name;
      var m := if n in taken then Fresh(n, taken) else n;
      map[n := Local(m)] + RenameFrom(ss[1..], taken + {m})
  }

  datatype Replacement = Replacement(prefix: seq<Stmt>, condition: Option<seq<Tok>>, tail: seq<Stmt>)

  function AllEdits(h: Helper, args: seq<Expr>, taken: set<string>): Subst {
    var plan := PlanFrom(h.params, BodyFree(h), args, 0, taken);
    if h.guards != [] then plan.th else plan.th + RenameFrom(h.tail, plan.taken)
  }

  function Replace(h: Helper, args: seq<Expr>, taken: set<string>): Replacement {
    var plan := PlanFrom(h.params, BodyFree(h), args, 0, taken);
    var th := AllEdits(h, args, taken);
    Replacement(plan.prefix, if h.guards != [] then Some(CombineGuards(h.guards, th)) else None, SubstSeq(h.tail, th))
  }

  method RenameCollidingLocals(tail: seq<Stmt>, reserved: set<string>) returns (edits: Subst)
    ensures edits == RenameFrom(tail, reserved)
  {
    edits := map[];
    var taken := reserved;
    var i := 0;
    while i < |tail|
      invariant 0 <= i <= |tail|
      invariant edits + RenameFrom(tail[i..], taken) == RenameFrom(tail, reserved)
    {
      assert tail[i..][1..] == tail[i + 1..];
      if tail[i].Const? {
        var n := tail[i].name;
        var m := n;
        if n in taken { m := FreshName(n, taken); }
        taken := taken + {m};
        edits := edits[n := Local(m)];
      }
      i := i + 1;
    }
    assert tail[i..] == [];
  }

  lemma ThenAssociates(a: Plan, b: Plan, d: Plan)
    ensures Then(Then(a, b), d) == Then(a, Then(b, d))
  {
    assert a.prefix + b.prefix + d.prefix == a.prefix + (b.prefix + d.prefix);
    assert a.th + b.th + d.th == a.th + (b.th + d.th);
  }

  method HoistOne(params: seq<string>, used: set<string>, args: seq<Expr>, i: nat, done: Plan) returns (next: Plan)
    requires i < |params|
    ensures next == Then(done, PlanStep(params, used, args, i, done.taken))
  {
    var p := params[i];
    next := done;
    if p !in used {
      if i < |args| {
        if !IsPure(args[i]) {
          next := next.(prefix := next.prefix + [ExprStmt(args[i])]);
        } else if !IsLiteral(Unwrap(args[i])) {
          next := next.(prefix := next.prefix + [ExprStmt(args[i])]);
        }
      }
    } else if i >= |args| {
      next := next.(th := next.th[p := Undef]);
    } else {
      var temp := FreshName("__inl_" + p, next.taken);
      next := Plan(next.prefix + [Const(temp, args[i])], next.th[p := Temp(temp)], next.taken + {temp});
    }
  }

  method HoistArguments(params: seq<string>, used: set<string>, args: seq<Expr>,
                        reserved: set<string>) returns (plan: Plan)
    ensures plan == PlanFrom(params, used, args, 0, reserved)
  {
    plan := Plan([], map[], reserved);
    var i := 0;
    while i < |params|
      invariant 0 <= i <= |params|
      invariant Then(plan, PlanFrom(params, used, args, i, plan.taken)) == PlanFrom(params, used, args, 0, reserved)
    {
      ghost var step := PlanStep(params, used, args, i, plan.taken);
      ThenAssociates(plan, step, PlanFrom(params, used, args, i + 1, step.taken));
      plan := HoistOne(params, used, args, i, plan);
      i := i + 1;
    }
  }

  /** The replacement of one call site; `taken'` is the block's grown set of reserved names. */
  method BuildReplacement(h: Helper, args: seq<Expr>, reserved: set<string>) returns (repl: Replacement)
    ensures repl == Replace(h, args, reserved)
  {
    var plan := HoistArguments(h.params, BodyFree(h), args, reserved);
    if h.guards != [] {
      repl := Replacement(plan.prefix, Some(CombineGuards(h.guards, plan.th)), SubstSeq(h.tail, plan.th));
    } else {
      var renames := RenameCollidingLocals(h.tail, plan.taken);
      repl := Replacement(plan.prefix, None, SubstSeq(h.tail, plan.th + renames));
    }
  }
}

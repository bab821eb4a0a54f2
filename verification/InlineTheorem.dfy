/** The main theorem of the inliner: in strict-effects mode the statements that replace a
    call do exactly what the call did, and when they do not, why. */
module InlineTheorem {
  import opened Common
  import opened InlineSyntax
  import opened InlineSemantics
  import opened InlineText
  import opened InlineSubst
  import opened InlineNegate
  import opened InlineSimulation
  import opened InlineTransform

  // ---------- Arguments, evaluated with new names in the block ----------

  /** `ei` is `ea` with the slots `t` added to its innermost frame. */
  ghost predicate Adds(ea: Env, t: Frame, ei: Env) {
    ea.Scope? && ea.vars.Keys !! t.Keys && ei == Scope(ea.vars + t, ea.outer)
  }

  ghost predicate SameHead(a: Env, b: Env) {
    a.Scope? && b.Scope? && a.vars.Keys == b.vars.Keys && Names(a) == Names(b)
  }

  lemma {:induction false} AddsLookup(ea: Env, t: Frame, ei: Env, n: string)
    requires Adds(ea, t, ei) && n !in t
    ensures Lookup(ei, n) == Lookup(ea, n)
    ensures forall v :: Adds(Store(ea, n, v), t, Store(ei, n, v))
  {
    forall v ensures Adds(Store(ea, n, v), t, Store(ei, n, v)) {
      if n in ea.vars {
        assert (ea.vars + t)[n := Live(v)] == ea.vars[n := Live(v)] + t;
      }
    }
  }

  lemma {:induction false} StoreNames(env: Env, n: string, v: Value)
    ensures Names(Store(env, n, v)) == Names(env)
  {
    if env.Scope? && n !in env.vars { StoreNames(env.outer, n, v); }
  }

  /** Evaluation does not see names it does not mention, and keeps the shape of the scopes. */
  lemma {:induction false} EvalAdds(w: World, e: Expr, ea: Env, t: Frame, ei: Env, mem: Mem)
    requires Adds(ea, t, ei) && ExprNames(e) !! t.Keys
    ensures var ra, ri := Eval(w, e, ea, mem), Eval(w, e, ei, mem);
            ra.out == ri.out && ra.mem == ri.mem && Adds(ra.env, t, ri.env) && SameHead(ea, ra.env)
    decreases e, 1
  {
    match e
    case Lit(_) =>
    case Id(n) => AddsLookup(ea, t, ei, n);
    case Call(_, args) => EvalListAdds(w, args, ea, t, ei, mem);
    case Not(x) => EvalAdds(w, x, ea, t, ei, mem);
    case Paren(x) => EvalAdds(w, x, ea, t, ei, mem);
    case Assign(n, rhs) =>
      EvalAdds(w, rhs, ea, t, ei, mem);
      AssignAdds(w, e, ea, t, ei, mem);
    case Bin(_, a, b) =>
      EvalAdds(w, a, ea, t, ei, mem);
      var ra, ri := Eval(w, a, ea, mem), Eval(w, a, ei, mem);
      EvalAdds(w, b, ra.env, t, ri.env, ra.mem);
  }

  lemma {:induction false} AssignAdds(w: World, e: Expr, ea: Env, t: Frame, ei: Env, mem: Mem)
    requires e.Assign? && ExprNames(e) !! t.Keys
    requires var ra, ri := Eval(w, e.rhs, ea, mem), Eval(w, e.rhs, ei, mem);
             ra.out == ri.out && ra.mem == ri.mem && Adds(ra.env, t, ri.env) && SameHead(ea, ra.env)
    ensures var ra, ri := Eval(w, e, ea, mem), Eval(w, e, ei, mem);
            ra.out == ri.out && ra.mem == ri.mem && Adds(ra.env, t, ri.env) && SameHead(ea, ra.env)
  {
    var ra, ri := Eval(w, e.rhs, ea, mem), Eval(w, e.rhs, ei, mem);
    AddsLookup(ra.env, t, ri.env, e.name);
    if ra.out.Normal? { StoreNames(ra.env, e.name, ra.out.v); }
  }

  lemma {:induction false} EvalListAdds(w: World, es: seq<Expr>, ea: Env, t: Frame, ei: Env, mem: Mem)
    requires Adds(ea, t, ei) && ExprsNames(es) !! t.Keys
    ensures var ra, ri := EvalList(w, es, ea, mem), EvalList(w, es, ei, mem);
            ra.mem == ri.mem && Adds(ra.env, t, ri.env) && SameHead(ea, ra.env) &&
            (match ra
             case Args(vals, _, _) => ri.Args? && ri.vals == vals
             case ArgThrow(v, _, _) => ri.ArgThrow? && ri.v == v)
    decreases es, 0
  {
    if es != [] {
      EvalAdds(w, es[0], ea, t, ei, mem);
      var ra, ri := Eval(w, es[0], ea, mem), Eval(w, es[0], ei, mem);
      EvalListAdds(w, es[1..], ra.env, t, ri.env, ra.mem);
    }
  }

  lemma {:induction false} LiteralIsInert(w: World, e: Expr, env: Env, mem: Mem)
    requires IsLiteral(Unwrap(e))
    ensures var r := Eval(w, e, env, mem); r.out.Normal? && r.env == env && r.mem == mem
  {
    if e.Paren? { LiteralIsInert(w, e.e, env, mem); }
  }

  // ---------- The prefix ----------

  function ArgsFrom(args: seq<Expr>, i: nat): seq<Expr> {
    if i < |args| then args[i..] else []
  }

  lemma {:induction false} DeclsAppend(a: seq<Stmt>, b: seq<Stmt>)
    ensures Decls(a + b) == Decls(a) + Decls(b)
    decreases a
  {
    if a == [] {
      assert a + b == b;
    } else {
      CatTail(a, b);
      DeclsAppend(a[1..], b);
    }
  }

  lemma {:induction false} PlanKeys(params: seq<string>, used: set<string>, args: seq<Expr>, i: nat, taken: set<string>)
    requires i <= |params|
    ensures PlanFrom(params, used, args, i, taken).th.Keys == set j | i <= j < |params| && params[j] in used :: params[j]
    decreases |params| - i
  {
    if i < |params| { PlanKeys(params, used, args, i + 1, PlanStep(params, used, args, i, taken).taken); }
  }

  /** Temporaries for the parameters from `i` on: distinct, and not among the taken names. */
  ghost predicate FreshPlan(plan: Plan, taken: set<string>) {
    && Range(plan.th) == Decls(plan.prefix) && Range(plan.th) !! taken
    && plan.taken == taken + Range(plan.th)
    && Injective(plan.th)
    && (forall p <- plan.th :: !plan.th[p].Local?)
  }

  lemma ThenFresh(a: Plan, b: Plan, taken: set<string>)
    requires a.th.Keys !! b.th.Keys && FreshPlan(a, taken) && FreshPlan(b, a.taken)
    ensures FreshPlan(Then(a, b), taken)
  {
    RangeThen(a.th, b.th);
    DeclsAppend(a.prefix, b.prefix);
    var th := Then(a, b).th;
    forall n <- th, m <- th | n != m && !th[n].Undef? && !th[m].Undef? ensures th[n].name != th[m].name {
      if n in a.th && m in b.th { assert th[n].name in Range(a.th) && th[m].name in Range(b.th); }
      if n in b.th && m in a.th { assert th[n].name in Range(b.th) && th[m].name in Range(a.th); }
    }
  }

  lemma {:induction false} PlanFresh(params: seq<string>, used: set<string>, args: seq<Expr>, i: nat,
                                     taken: set<string>)
    requires i <= |params| && Distinct(params)
    ensures FreshPlan(PlanFrom(params, used, args, i, taken), taken)
    decreases |params| - i
  {
    if i < |params| {
      var step := PlanStep(params, used, args, i, taken);
      PlanFresh(params, used, args, i + 1, step.taken);
      PlanKeys(params, used, args, i + 1, step.taken);
      StepRange(params, used, args, i, taken);
      ThenFresh(step, PlanFrom(params, used, args, i + 1, step.taken), taken);
    }
  }

  lemma StepRange(params: seq<string>, used: set<string>, args: seq<Expr>, i: nat, taken: set<string>)
    requires i < |params|
    ensures FreshPlan(PlanStep(params, used, args, i, taken), taken)
  {
    var step := PlanStep(params, used, args, i, taken);
    var p := params[i];
    if p in step.th && step.th[p].Temp? {
      assert step.th[p].name in Range(step.th);
      assert step.prefix[1..] == [];
    }
  }

  /** Running the prefix from parameter `i` on evaluates the remaining arguments as the call
      does; the temporaries end up holding their values in `t'`. */
  ghost predicate PrefixRun(w: World, fuel: nat, params: seq<string>, used: set<string>, args: seq<Expr>, i: nat,
                            taken: set<string>,
                            ea: Env, t: Frame, ei: Env, mem: Mem, t': Frame)
    requires i <= |params|
  {
    var plan := PlanFrom(params, used, args, i, taken);
    var ra, ri := EvalList(w, ArgsFrom(args, i), ea, mem), ExecSeq(w, fuel, plan.prefix, ei, mem);
    && ri.mem == ra.mem && SameHead(ea, ra.env) && Adds(ra.env, t', ri.env)
    && t'.Keys == t.Keys && (forall x <- t :: x !in Range(plan.th) ==> t'[x] == t[x])
    && match ra
       case ArgThrow(v, _, _) => ri.out == Thrown(v)
       case Args(vals, _, _) => ri.out == Done && Holds(params, used, args, i, plan.th, vals, t')
  }

  /** `ei` is `ea` with the frame `t` of temporaries, which later arguments do not mention. */
  ghost predicate Ready(params: seq<string>, used: set<string>, args: seq<Expr>, i: nat, taken: set<string>,
                        ea: Env, t: Frame, ei: Env)
    requires i <= |params|
  {
    && Adds(ea, t, ei) && ExprsNames(ArgsFrom(args, i)) !! t.Keys
    && Decls(PlanFrom(params, used, args, i, taken).prefix) <= t.Keys
  }

  lemma {:induction false} ReadyNext(w: World, params: seq<string>, used: set<string>, args: seq<Expr>, i: nat,
                                     taken: set<string>,
                  ea: Env, t: Frame, ei: Env, mem: Mem)
    requires i < |params| && Distinct(params) && Ready(params, used, args, i, taken, ea, t, ei)
    ensures i >= |args| ==>
              Ready(params, used, args, i + 1, PlanStep(params, used, args, i, taken).taken, ea, t, ei)
    ensures i < |args| ==> ExprNames(args[i]) !! t.Keys
    ensures i < |args| ==>
              Ready(params, used, args, i + 1, PlanStep(params, used, args, i, taken).taken,
                    Eval(w, args[i], ea, mem).env, t, Eval(w, args[i], ei, mem).env)
  {
    PlanSplits(params, used, args, i, taken);
    if i < |args| { EvalAdds(w, args[i], ea, t, ei, mem); }
  }

  lemma ReadyHoist(params: seq<string>, used: set<string>, args: seq<Expr>, i: nat, taken: set<string>,
                   ea: Env, t: Frame, ei: Env, temp: string, v: Value)
    requires i <= |params| && Ready(params, used, args, i, taken, ea, t, ei) && temp in t
    ensures Ready(params, used, args, i, taken, ea, t[temp := Live(v)], Declare(ei, temp, v))
  {
    assert ea.vars + t[temp := Live(v)] == (ea.vars + t)[temp := Live(v)];
    assert t[temp := Live(v)].Keys == t.Keys;
  }

  lemma {:induction false} HoistedIsIn(params: seq<string>, used: set<string>, args: seq<Expr>, i: nat,
                                       taken: set<string>, t: Frame)
    requires i < |args| <= |params| && Distinct(params) && params[i] in used
    requires Decls(PlanFrom(params, used, args, i, taken).prefix) <= t.Keys
    ensures var step := PlanStep(params, used, args, i, taken);
            params[i] in step.th && step.th[params[i]].Temp? && step.th[params[i]].name in t
  {
    PlanSplits(params, used, args, i, taken);
    var step := PlanStep(params, used, args, i, taken);
    assert step.th[params[i]].name in Range(step.th);
  }

  lemma {:induction false} HoistReady(params: seq<string>, used: set<string>, args: seq<Expr>, i: nat,
                                      taken: set<string>,
                                      ea: Env, t: Frame, ei: Env, v: Value)
    returns (temp: string)
    requires i < |args| <= |params| && Distinct(params) && params[i] in used
    requires Decls(PlanFrom(params, used, args, i, taken).prefix) <= t.Keys
    requires Ready(params, used, args, i + 1, PlanStep(params, used, args, i, taken).taken, ea, t, ei)
    ensures var step := PlanStep(params, used, args, i, taken);
            && params[i] in step.th && step.th[params[i]].Temp? && temp == step.th[params[i]].name && temp in t
            && Ready(params, used, args, i + 1, step.taken, ea, t[temp := Live(v)], Declare(ei, temp, v))
  {
    HoistedIsIn(params, used, args, i, taken, t);
    temp := PlanStep(params, used, args, i, taken).th[params[i]].name;
    ReadyHoist(params, used, args, i + 1, PlanStep(params, used, args, i, taken).taken, ea, t, ei, temp, v);
  }

  lemma {:induction false} PrefixRuns(w: World, fuel: nat, params: seq<string>, used: set<string>, args: seq<Expr>,
                                      i: nat, taken: set<string>,
                                      ea: Env, t: Frame, ei: Env, mem: Mem)
    returns (t': Frame)
    requires i <= |params| && |args| <= |params| && Distinct(params)
    requires Ready(params, used, args, i, taken, ea, t, ei)
    ensures PrefixRun(w, fuel, params, used, args, i, taken, ea, t, ei, mem, t')
    decreases |params| - i, 1
  {
    if i == |params| {
      t' := t;
      NothingLeft(w, fuel, params, used, args, i, taken, ea, t, ei, mem);
    } else if i >= |args| {
      t' := NoArgumentRuns(w, fuel, params, used, args, i, taken, ea, t, ei, mem);
    } else {
      t' := ArgumentRuns(w, fuel, params, used, args, i, taken, ea, t, ei, mem);
    }
  }

  lemma {:induction false} NoArgumentRuns(w: World, fuel: nat, params: seq<string>, used: set<string>,
                                          args: seq<Expr>, i: nat,
                                          taken: set<string>, ea: Env, t: Frame, ei: Env, mem: Mem)
    returns (t': Frame)
    requires |args| <= i < |params| && Distinct(params)
    requires Ready(params, used, args, i, taken, ea, t, ei)
    ensures PrefixRun(w, fuel, params, used, args, i, taken, ea, t, ei, mem, t')
    decreases |params| - i, 0
  {
    ReadyNext(w, params, used, args, i, taken, ea, t, ei, mem);
    t' := PrefixRuns(w, fuel, params, used, args, i + 1, PlanStep(params, used, args, i, taken).taken, ea, t, ei, mem);
    StepNoArgument(w, fuel, params, used, args, i, taken, ea, t, ei, mem, t');
  }

  lemma {:induction false} ArgumentRuns(w: World, fuel: nat, params: seq<string>, used: set<string>,
                                        args: seq<Expr>, i: nat,
                                        taken: set<string>, ea: Env, t: Frame, ei: Env, mem: Mem)
    returns (t': Frame)
    requires i < |args| <= |params| && Distinct(params)
    requires Ready(params, used, args, i, taken, ea, t, ei)
    ensures PrefixRun(w, fuel, params, used, args, i, taken, ea, t, ei, mem, t')
    decreases |params| - i, 0
  {
    var step := PlanStep(params, used, args, i, taken);
    var ra, ri := Eval(w, args[i], ea, mem), Eval(w, args[i], ei, mem);
    ReadyNext(w, params, used, args, i, taken, ea, t, ei, mem);
    if ra.out.Throw? {
      t' := t;
      StepThrows(w, fuel, params, used, args, i, taken, ea, t, ei, mem);
    } else if params[i] !in used {
      t' := PrefixRuns(w, fuel, params, used, args, i + 1, step.taken, ra.env, t, ri.env, ra.mem);
      StepUnused(w, fuel, params, used, args, i, taken, ea, t, ei, mem, t');
    } else {
      var temp := HoistReady(params, used, args, i, taken, ra.env, t, ri.env, ra.out.v);
      t' := PrefixRuns(w, fuel, params, used, args, i + 1, step.taken, ra.env, t[temp := Live(ra.out.v)],
                       Declare(ri.env, temp, ra.out.v), ra.mem);
      StepHoists(w, fuel, params, used, args, i, taken, ea, t, ei, mem, t');
    }
  }

  lemma NothingLeft(w: World, fuel: nat, params: seq<string>, used: set<string>, args: seq<Expr>, i: nat,
                    taken: set<string>,
                    ea: Env, t: Frame, ei: Env, mem: Mem)
    requires |args| <= |params| == i && Adds(ea, t, ei)
    ensures PrefixRun(w, fuel, params, used, args, i, taken, ea, t, ei, mem, t)
  {
  }

  lemma PlanSplits(params: seq<string>, used: set<string>, args: seq<Expr>, i: nat, taken: set<string>)
    requires i < |params| && Distinct(params)
    ensures var step := PlanStep(params, used, args, i, taken);
            var rest := PlanFrom(params, used, args, i + 1, step.taken);
            var plan := PlanFrom(params, used, args, i, taken);
            && Decls(plan.prefix) == Decls(step.prefix) + Decls(rest.prefix)
            && Range(plan.th) == Range(step.th) + Range(rest.th)
            && Range(rest.th) == Decls(rest.prefix) && Range(step.th) == Decls(step.prefix)
            && Range(step.th) !! Range(rest.th) && params[i] !in rest.th
            && (step.prefix == [] ==> plan.prefix == rest.prefix)
    ensures i < |args| ==>
              ExprsNames(ArgsFrom(args, i)) == ExprNames(args[i]) + ExprsNames(ArgsFrom(args, i + 1))
    ensures i >= |args| ==> ArgsFrom(args, i) == ArgsFrom(args, i + 1) == []
  {
    var step := PlanStep(params, used, args, i, taken);
    var rest := PlanFrom(params, used, args, i + 1, step.taken);
    StepRange(params, used, args, i, taken);
    PlanFresh(params, used, args, i + 1, step.taken);
    PlanKeys(params, used, args, i + 1, step.taken);
    DeclsAppend(step.prefix, rest.prefix);
    RangeThen(step.th, rest.th);
    if i < |args| {
      assert ArgsFrom(args, i)[0] == args[i] && ArgsFrom(args, i)[1..] == ArgsFrom(args, i + 1);
    }
  }

  lemma {:induction false} ListCons(w: World, args: seq<Expr>, i: nat, env: Env, mem: Mem)
    requires i < |args|
    ensures var r := Eval(w, args[i], env, mem);
            EvalList(w, ArgsFrom(args, i), env, mem) ==
            if r.out.Throw? then ArgThrow(r.out.v, r.env, r.mem)
            else
              match EvalList(w, ArgsFrom(args, i + 1), r.env, r.mem)
              case ArgThrow(v, env1, mem1) => ArgThrow(v, env1, mem1)
              case Args(vals, env1, mem1) => Args([r.out.v] + vals, env1, mem1)
  {
    assert ArgsFrom(args, i)[1..] == ArgsFrom(args, i + 1);
  }

  lemma {:induction false} RunCons(w: World, fuel: nat, s: Stmt, ss: seq<Stmt>, env: Env, mem: Mem)
    ensures var r := Exec(w, fuel, s, env, mem);
            ExecSeq(w, fuel, [s] + ss, env, mem) ==
            if r.out != Done then r else ExecSeq(w, fuel, ss, r.env, r.mem)
  {
    assert ([s] + ss)[1..] == ss;
  }

  lemma StepNoArgument(w: World, fuel: nat, params: seq<string>, used: set<string>, args: seq<Expr>, i: nat,
                       taken: set<string>, ea: Env, t: Frame, ei: Env, mem: Mem, t': Frame)
    requires |args| <= i < |params| && Distinct(params)
    requires PrefixRun(w, fuel, params, used, args, i + 1, PlanStep(params, used, args, i, taken).taken, ea, t, ei, mem, t')
    ensures PrefixRun(w, fuel, params, used, args, i, taken, ea, t, ei, mem, t')
  {
    PlanSplits(params, used, args, i, taken);
  }

  lemma {:induction false} StepThrows(w: World, fuel: nat, params: seq<string>, used: set<string>, args: seq<Expr>,
                                      i: nat,
                   taken: set<string>, ea: Env, t: Frame, ei: Env, mem: Mem)
    requires i < |args| <= |params| && i < |params|
    requires Adds(ea, t, ei) && ExprNames(args[i]) !! t.Keys
    requires Eval(w, args[i], ea, mem).out.Throw?
    ensures PrefixRun(w, fuel, params, used, args, i, taken, ea, t, ei, mem, t)
  {
    var step := PlanStep(params, used, args, i, taken);
    EvalAdds(w, args[i], ea, t, ei, mem);
    if IsLiteral(Unwrap(args[i])) { LiteralIsInert(w, args[i], ea, mem); }
    ListCons(w, args, i, ea, mem);
    RunCons(w, fuel, step.prefix[0], PlanFrom(params, used, args, i + 1, step.taken).prefix, ei, mem);
  }

  lemma {:induction false} StepUnused(w: World, fuel: nat, params: seq<string>, used: set<string>, args: seq<Expr>,
                                      i: nat,
                   taken: set<string>, ea: Env, t: Frame, ei: Env, mem: Mem, t': Frame)
    requires i < |args| <= |params| && params[i] !in used && Distinct(params)
    requires Adds(ea, t, ei) && ExprNames(args[i]) !! t.Keys
    requires Eval(w, args[i], ea, mem).out.Normal?
    requires var ra, ri := Eval(w, args[i], ea, mem), Eval(w, args[i], ei, mem);
             PrefixRun(w, fuel, params, used, args, i + 1, taken, ra.env, t, ri.env, ra.mem, t')
    ensures PrefixRun(w, fuel, params, used, args, i, taken, ea, t, ei, mem, t')
  {
    var a := args[i];
    EvalAdds(w, a, ea, t, ei, mem);
    ListCons(w, args, i, ea, mem);
    UnusedRuns(w, fuel, params, used, args, i, taken, ei, mem);
    var ra := Eval(w, a, ea, mem);
    var later := EvalList(w, ArgsFrom(args, i + 1), ra.env, ra.mem);
    var th := PlanFrom(params, used, args, i + 1, taken).th;
    if later.Args? { HoldsSkip(params, used, args, i, th, ra.out.v, later.vals, t'); }
  }

  lemma UnusedRuns(w: World, fuel: nat, params: seq<string>, used: set<string>, args: seq<Expr>, i: nat,
                   taken: set<string>, ei: Env, mem: Mem)
    requires i < |args| <= |params| && params[i] !in used && Eval(w, args[i], ei, mem).out.Normal?
    ensures var plan, rest := PlanFrom(params, used, args, i, taken), PlanFrom(params, used, args, i + 1, taken);
            var ri := Eval(w, args[i], ei, mem);
            plan.th == rest.th && ExecSeq(w, fuel, plan.prefix, ei, mem) == ExecSeq(w, fuel, rest.prefix, ri.env, ri.mem)
  {
    var plan, rest := PlanFrom(params, used, args, i, taken), PlanFrom(params, used, args, i + 1, taken);
    var step := PlanStep(params, used, args, i, taken);
    assert plan.th == rest.th;
    if step.prefix == [] {
      assert plan.prefix == rest.prefix;
      LiteralIsInert(w, args[i], ei, mem);
    } else {
      RunCons(w, fuel, ExprStmt(args[i]), rest.prefix, ei, mem);
    }
  }

  lemma HoldsSkip(params: seq<string>, used: set<string>, args: seq<Expr>, i: nat, th: Subst,
                  v: Value, vals: seq<Value>, t': Frame)
    requires i < |args| <= |params| && params[i] !in used
    requires Holds(params, used, args, i + 1, th, vals, t')
    ensures Holds(params, used, args, i, th, [v] + vals, t')
  {
  }

  lemma {:induction false} StepHoists(w: World, fuel: nat, params: seq<string>, used: set<string>, args: seq<Expr>,
                                      i: nat,
                   taken: set<string>, ea: Env, t: Frame, ei: Env, mem: Mem, t': Frame)
    requires i < |args| <= |params| && Distinct(params) && params[i] in used
    requires Adds(ea, t, ei) && ExprNames(args[i]) !! t.Keys
    requires Eval(w, args[i], ea, mem).out.Normal?
    requires var step := PlanStep(params, used, args, i, taken);
             var ra, ri := Eval(w, args[i], ea, mem), Eval(w, args[i], ei, mem);
             var temp := step.th[params[i]].name;
             temp in t &&
             PrefixRun(w, fuel, params, used, args, i + 1, step.taken, ra.env, t[temp := Live(ra.out.v)],
                       Declare(ri.env, temp, ra.out.v), ra.mem, t')
    ensures PrefixRun(w, fuel, params, used, args, i, taken, ea, t, ei, mem, t')
  {
    var a := args[i];
    var step := PlanStep(params, used, args, i, taken);
    var rest := PlanFrom(params, used, args, i + 1, step.taken);
    var temp := step.th[params[i]].name;
    PlanSplits(params, used, args, i, taken);
    assert temp in Range(step.th);
    EvalAdds(w, a, ea, t, ei, mem);
    ListCons(w, args, i, ea, mem);
    RunCons(w, fuel, Const(temp, a), rest.prefix, ei, mem);
    var rest_args := EvalList(w, ArgsFrom(args, i + 1), Eval(w, a, ea, mem).env, Eval(w, a, ea, mem).mem);
    if rest_args.Args? {
      HoldsCons(params, used, args, i, step.th, rest.th, Eval(w, a, ea, mem).out.v, rest_args.vals, t', temp);
    }
  }

  lemma HoldsCons(params: seq<string>, used: set<string>, args: seq<Expr>, i: nat, th: Subst, rest: Subst,
                  v: Value, vals: seq<Value>, t': Frame, temp: string)
    requires i < |args| <= |params| && Distinct(params) && params[i] in used
    requires th == map[params[i] := Temp(temp)] && params[i] !in rest && temp in t' && t'[temp] == Live(v)
    requires Holds(params, used, args, i + 1, rest, vals, t')
    ensures Holds(params, used, args, i, th + rest, [v] + vals, t')
  {
  }

  lemma RangeThen(a: Subst, b: Subst)
    requires a.Keys !! b.Keys
    ensures Range(a + b) == Range(a) + Range(b)
  {
    forall x | x in Range(a) + Range(b) ensures x in Range(a + b) {
      if x in Range(a) {
        var p :| p in a && !a[p].Undef? && a[p].name == x;
        assert p in a + b && (a + b)[p] == a[p];
      } else {
        var p :| p in b && !b[p].Undef? && b[p].name == x;
        assert p in a + b && (a + b)[p] == b[p];
      }
    }
  }

  /** Each used parameter from `i` on is replaced by a slot holding its value, or by
      `undefined` when no argument was passed. */
  ghost predicate Holds(params: seq<string>, used: set<string>, args: seq<Expr>, i: nat, th: Subst,
                        vals: seq<Value>, t: Frame) {
    forall j :: i <= j < |params| && params[j] in used ==>
      params[j] in th &&
      match th[params[j]]
      case Undef => j >= |args|
      case Temp(m) => j < |args| && j - i < |vals| && m in t && t[m] == Live(vals[j - i])
      case Local(_) => false
  }

  // ---------- What the tool requires, and what it does not check ----------

  function ParamSet(h: Helper): set<string> {
    set p | p in h.params
  }

  /** What the grammar already rules out. */
  ghost predicate WellFormed(h: Helper) {
    Distinct(h.params) && ParamSet(h) !! Decls(h.tail) && forall g <- h.guards :: Parsed(g)
  }

  /** `computeFreeNames`: one flat set, so a name declared anywhere in the body counts as
      local everywhere in it. */
  function FlatFreeNames(h: Helper): set<string> {
    ExprsNames(h.guards) + SeqAll(h.tail) - ParamSet(h) - Decls(h.tail) - SeqNested(h.tail)
  }

  /** The tool's own acceptance of a call from inside scopes that declare `scope`. */
  predicate Accepted(h: Helper, args: seq<Expr>, scope: set<string>) {
    && |args| <= |h.params|
    && AllSpare(h.guards, ParamSet(h)) && SeqSpares(h.tail, ParamSet(h))
    && FlatFreeNames(h) !! scope
  }

  /** Names the body's own blocks declare around code that is moved. */
  function Capturing(h: Helper): set<string> {
    (if h.guards != [] then Decls(h.tail) else {}) + SeqNested(h.tail)
  }

  /** The naming conditions that acceptance leaves open: guards do not mention tail locals,
      no name is both free and block-local in the body while the caller declares it, and no
      introduced name is one the body uses for something else. */
  ghost predicate Hygienic(h: Helper, args: seq<Expr>, taken: set<string>, scope: set<string>) {
    var th := AllEdits(h, args, taken);
    && ExprsNames(h.guards) !! Decls(h.tail)
    && BodyFree(h) * SeqNested(h.tail) * scope <= ParamSet(h)
    && forall n <- th :: !th[n].Undef? && th[n].name != n ==>
         th[n].name !in BodyFree(h) - th.Keys && th[n].name !in Capturing(h)
  }

  function OwnScope(h: Helper, vals: seq<Value>): Env {
    Scope(DeadZone(Decls(h.tail)), Scope(ParamFrame(h.params, vals), Empty))
  }

  /** No guard of this call compares `undefined` with `<`, `>`, `<=` or `>=`. */
  predicate CallOrdered(w: World, h: Helper, args: seq<Expr>, caller: Env, mem: Mem) {
    match EvalList(w, args, caller, mem)
    case ArgThrow(_, _, _) => true
    case Args(vals, _, mem1) => GuardsOrdered(w, h.guards, OwnScope(h, vals), mem1)
  }

  /** The statements inserted for a replacement, the condition read back from its text. */
  function Statements(repl: Replacement): Option<seq<Stmt>> {
    match repl.condition
    case None => Some(repl.prefix + repl.tail)
    case Some(text) =>
      match ParseAll(text)
      case None => None
      case Some(c) => Some(repl.prefix + [If(c, repl.tail, [])])
  }

  /** Statements inserted into the caller's block: their declarations join its scope. */
  function RunInBlock(w: World, fuel: nat, ss: seq<Stmt>, caller: Env, mem: Mem): Run
    requires caller.Scope?
  {
    ExecSeq(w, fuel, ss, Scope(caller.vars + DeadZone(Decls(ss)), caller.outer), mem)
  }

  /** Same completion, module state and trace; the caller's bindings end up the same, beside
      `added` new ones. */
  ghost predicate SameRun(call: Run, inl: Run, added: set<string>) {
    && call.out == inl.out && call.mem == inl.mem
    && call.env.Scope? && inl.env.Scope? && call.env.outer == inl.env.outer
    && call.env.vars.Keys !! added && inl.env.vars.Keys == call.env.vars.Keys + added
    && forall x <- call.env.vars :: inl.env.vars[x] == call.env.vars[x]
  }

  // ---------- Proof ----------

  lemma {:induction false} SeqOccInAll(ss: seq<Stmt>)
    ensures SeqOcc(ss) <= SeqAll(ss)
    decreases ss
  {
    if ss != [] {
      SeqOccInAll(ss[1..]);
      match ss[0]
      case If(c, t, f) =>
        SeqOccInAll(t);
        SeqOccInAll(f);
        assert StmtOcc(ss[0]) <= ExprNames(c) + SeqAll(t) + SeqAll(f);
      case While(c, b) =>
        SeqOccInAll(b);
        assert StmtOcc(ss[0]) <= ExprNames(c) + SeqAll(b);
      case _ =>
    }
  }

  lemma {:induction false} ExecAppend(w: World, fuel: nat, a: seq<Stmt>, b: seq<Stmt>, env: Env, mem: Mem)
    ensures var r := ExecSeq(w, fuel, a, env, mem);
            ExecSeq(w, fuel, a + b, env, mem) == if r.out.Done? then ExecSeq(w, fuel, b, r.env, r.mem) else r
    decreases a
  {
    if a == [] {
      assert a + b == b;
    } else {
      CatTail(a, b);
      var r := Exec(w, fuel, a[0], env, mem);
      ExecAppend(w, fuel, a[1..], b, r.env, r.mem);
    }
  }

  lemma {:induction false} FreeNamesNotInScope(h: Helper, args: seq<Expr>, taken: set<string>, scope: set<string>)
    requires WellFormed(h) && Accepted(h, args, scope) && Hygienic(h, args, taken, scope)
    ensures (BodyFree(h) - ParamSet(h)) !! scope && BodyFree(h) !! Decls(h.tail)
  {
    SeqOccInAll(h.tail);
  }

  lemma {:induction false} SparesLess(e: Expr, p: set<string>, q: set<string>)
    requires Spares(e, p) && q <= p
    ensures Spares(e, q)
    decreases e, 1
  {
    match e
    case Call(_, args) => AllSpareLess(args, p, q);
    case Assign(_, rhs) => SparesLess(rhs, p, q);
    case Not(x) => SparesLess(x, p, q);
    case Bin(_, l, r) => SparesLess(l, p, q); SparesLess(r, p, q);
    case Paren(x) => SparesLess(x, p, q);
    case _ =>
  }

  lemma {:induction false} AllSpareLess(es: seq<Expr>, p: set<string>, q: set<string>)
    requires AllSpare(es, p) && q <= p
    ensures AllSpare(es, q)
    decreases es, 0
  {
    if es != [] { SparesLess(es[0], p, q); AllSpareLess(es[1..], p, q); }
  }

  lemma {:induction false} SeqSparesLess(ss: seq<Stmt>, p: set<string>, q: set<string>)
    requires SeqSpares(ss, p) && q <= p
    ensures SeqSpares(ss, q)
    decreases ss
  {
    if ss != [] {
      SeqSparesLess(ss[1..], p, q);
      match ss[0]
      case ExprStmt(e) => SparesLess(e, p, q);
      case Const(_, e) => SparesLess(e, p, q);
      case If(c, t, f) =>
        SparesLess(c, p, q);
        SeqSparesLess(t, p - Decls(t), q - Decls(t));
        SeqSparesLess(f, p - Decls(f), q - Decls(f));
      case While(c, b) =>
        SparesLess(c, p, q);
        SeqSparesLess(b, p - Decls(b), q - Decls(b));
    }
  }

  /** Code that assigns to no name of `env` leaves `env` alone. */
  lemma {:induction false} EvalUntouched(w: World, e: Expr, env: Env, mem: Mem)
    requires Spares(e, Names(env))
    ensures Eval(w, e, env, mem).env == env
    decreases e, 1
  {
    match e
    case Call(_, args) => ListUntouched(w, args, env, mem);
    case Assign(n, rhs) => EvalUntouched(w, rhs, env, mem); LookupNames(env, n);
    case Not(x) => EvalUntouched(w, x, env, mem);
    case Bin(_, l, r) =>
      EvalUntouched(w, l, env, mem);
      EvalUntouched(w, r, env, Eval(w, l, env, mem).mem);
    case Paren(x) => EvalUntouched(w, x, env, mem);
    case _ =>
  }

  lemma {:induction false} ListUntouched(w: World, es: seq<Expr>, env: Env, mem: Mem)
    requires AllSpare(es, Names(env))
    ensures EvalList(w, es, env, mem).env == env
    decreases es, 0
  {
    if es != [] {
      EvalUntouched(w, es[0], env, mem);
      ListUntouched(w, es[1..], env, Eval(w, es[0], env, mem).mem);
    }
  }

  lemma {:induction false} LookupNames(env: Env, n: string)
    ensures Lookup(env, n).Some? <==> n in Names(env)
  {
    if env.Scope? { LookupNames(env.outer, n); }
  }

  lemma {:induction false} GuardsUntouched(w: World, guards: seq<Expr>, env: Env, mem: Mem)
    requires AllSpare(guards, Names(env))
    ensures RunGuards(w, guards, env, mem).env == env
    decreases guards
  {
    if guards != [] {
      EvalUntouched(w, guards[0], env, mem);
      GuardsUntouched(w, guards[1..], env, Eval(w, guards[0], env, mem).mem);
    }
  }

  lemma {:induction false} SparesMore(e: Expr, p: set<string>, q: set<string>)
    requires Spares(e, p) && ExprNames(e) !! q
    ensures Spares(e, p + q)
    decreases e, 1
  {
    match e
    case Call(_, args) => AllSpareMore(args, p, q);
    case Assign(_, rhs) => SparesMore(rhs, p, q);
    case Not(x) => SparesMore(x, p, q);
    case Bin(_, l, r) => SparesMore(l, p, q); SparesMore(r, p, q);
    case Paren(x) => SparesMore(x, p, q);
    case _ =>
  }

  lemma {:induction false} AllSpareMore(es: seq<Expr>, p: set<string>, q: set<string>)
    requires AllSpare(es, p) && ExprsNames(es) !! q
    ensures AllSpare(es, p + q)
    decreases es, 0
  {
    if es != [] { SparesMore(es[0], p, q); AllSpareMore(es[1..], p, q); }
  }

  lemma {:induction false} RenameFresh(ss: seq<Stmt>, taken: set<string>)
    ensures var th := RenameFrom(ss, taken);
            && th.Keys == Decls(ss) && Range(th) !! taken && Injective(th)
            && (forall n <- th :: th[n].Local?)
    decreases ss
  {
    if ss != [] {
      if !ss[0].Const? {
        RenameFresh(ss[1..], taken);
      } else {
        var n := ss[0].name;
        var m := if n in taken then Fresh(n, taken) else n;
        var rest := RenameFrom(ss[1..], taken + {m});
        RenameFresh(ss[1..], taken + {m});
        var th := map[n := Local(m)] + rest;
        forall x <- rest ensures rest[x].name in Range(rest) {}
        assert Range(th) <= {m} + Range(rest);
        assert Injective(th);
      }
    }
  }

  /** All edits of one call: parameters used in the body and, without guards, its locals. */
  lemma {:induction false} EditsFresh(h: Helper, args: seq<Expr>, taken: set<string>)
    requires WellFormed(h)
    ensures var plan := PlanFrom(h.params, BodyFree(h), args, 0, taken);
            var th := AllEdits(h, args, taken);
            && FreshPlan(plan, taken) && Injective(th) && Range(th) !! taken
            && plan.th.Keys == ParamSet(h) * BodyFree(h)
            && th.Keys == plan.th.Keys + (if h.guards != [] then {} else Decls(h.tail))
            && (forall n <- th :: if n in plan.th then th[n] == plan.th[n] && !th[n].Local? else th[n].Local?)
            && Range(plan.th) <= Range(th)
  {
    var plan := PlanFrom(h.params, BodyFree(h), args, 0, taken);
    PlanFresh(h.params, BodyFree(h), args, 0, taken);
    PlanKeys(h.params, BodyFree(h), args, 0, taken);
    if h.guards == [] {
      var renames := RenameFrom(h.tail, plan.taken);
      RenameFresh(h.tail, plan.taken);
      RangeThen(plan.th, renames);
      var th := plan.th + renames;
      forall n <- th, m <- th | n != m && !th[n].Undef? && !th[m].Undef? ensures th[n].name != th[m].name {
        if n in plan.th && m in renames { assert th[n].name in Range(plan.th) && th[m].name in Range(renames); }
        if n in renames && m in plan.th { assert th[n].name in Range(renames) && th[m].name in Range(plan.th); }
      }
    }
  }

  lemma {:induction false} ParamAt(params: seq<string>, vals: seq<Value>, i: nat)
    requires i < |params| && Distinct(params)
    ensures params[i] in ParamFrame(params, vals)
    ensures ParamFrame(params, vals)[params[i]] == Live(if i < |vals| then vals[i] else Undefined)
    decreases |params|
  {
    if i < |params| - 1 { ParamAt(params[..|params| - 1], vals, i); }
  }

  lemma {:induction false} ParamKeys(params: seq<string>, vals: seq<Value>)
    ensures ParamFrame(params, vals).Keys == set p | p in params
    decreases |params|
  {
    if params != [] {
      var rest := params[..|params| - 1];
      ParamKeys(rest, vals);
      assert params == rest + [params[|params| - 1]];
    }
  }

  lemma {:induction false} ParamLookup(h: Helper, args: seq<Expr>, vals: seq<Value>, th: Subst, t: Frame, p: string)
    requires WellFormed(h) && Holds(h.params, BodyFree(h), args, 0, th, vals, t) && |vals| == |args|
    requires p in ParamSet(h) * BodyFree(h)
    ensures p in th && p in ParamFrame(h.params, vals)
    ensures if th[p].Undef? then ParamFrame(h.params, vals)[p] == Live(Undefined)
            else th[p].Temp? && th[p].name in t && t[th[p].name] == ParamFrame(h.params, vals)[p]
  {
    var i :| 0 <= i < |h.params| && h.params[i] == p;
    ParamAt(h.params, vals, i);
  }

  /** The caller's block after the prefix: every parameter the body uses has its value
      there, and no other name the body uses is bound there. */
  /** What a parameter is replaced by has its value. */
  ghost predicate ParamReady(h: Helper, vals: seq<Value>, th: Subst, ei: Env, p: string)
    requires ei.Scope?
  {
    && p in th && p in ParamFrame(h.params, vals) && !th[p].Local?
    && if th[p].Undef? then ParamFrame(h.params, vals)[p] == Live(Undefined)
       else th[p].name in ei.vars && ei.vars[th[p].name] == ParamFrame(h.params, vals)[p]
  }

  ghost predicate Bound(h: Helper, vals: seq<Value>, th: Subst, ei: Env) {
    && ei.Scope? && (BodyFree(h) - ParamSet(h)) !! Names(ei)
    && forall p <- ParamSet(h) * BodyFree(h) :: ParamReady(h, vals, th, ei, p)
  }

  lemma {:induction false} GuardedRelated(h: Helper, args: seq<Expr>, taken: set<string>, scope: set<string>,
                                          vals: seq<Value>, ei: Env)
    requires WellFormed(h) && Accepted(h, args, scope) && Hygienic(h, args, taken, scope) && h.guards != []
    requires Bound(h, vals, AllEdits(h, args, taken), ei)
    ensures var c := Ctx(AllEdits(h, args, taken), BodyFree(h), Capturing(h), ei);
            Related(c, Scope(ParamFrame(h.params, vals), Empty), ei) && Related(c, OwnScope(h, vals), ei)
  {
    var th := AllEdits(h, args, taken);
    var c := Ctx(th, BodyFree(h), Capturing(h), ei);
    var params := Scope(ParamFrame(h.params, vals), Empty);
    EditsFresh(h, args, taken);
    FreeNamesNotInScope(h, args, taken, scope);
    ParamKeys(h.params, vals);
    forall n <- c.free ensures NameRelated(c, n, params, ei) && NameRelated(c, n, OwnScope(h, vals), ei) {
      LookupNames(ei, n);
      assert n !in Decls(h.tail);
    }
  }

  /** A scope still related to an unchanged helper scope is itself unchanged. */
  lemma RelatedUnchanged(c: Ctx, eh: Env, ei: Env)
    requires Related(c, eh, c.base) && Related(c, eh, ei)
    ensures ei == c.base
  {
    forall x <- c.base.vars ensures ei.vars[x] == c.base.vars[x] {
      if x in Range(c.th) {
        var n :| n in c.th && !c.th[n].Undef? && c.th[n].name == x;
        assert NameRelated(c, n, eh, ei) && NameRelated(c, n, eh, c.base);
      }
    }
    assert ei.vars == c.base.vars;
  }

  lemma OwnNames(h: Helper, vals: seq<Value>)
    ensures Names(OwnScope(h, vals)) <= ParamSet(h) + Decls(h.tail)
  {
    ParamKeys(h.params, vals);
    assert Names(Scope(ParamFrame(h.params, vals), Empty)) == ParamFrame(h.params, vals).Keys;
  }

  lemma {:induction false} GuardPhase(w: World, h: Helper, args: seq<Expr>, taken: set<string>, scope: set<string>,
                                      vals: seq<Value>,
                   ei: Env, mem: Mem)
    requires WellFormed(h) && Accepted(h, args, scope) && Hygienic(h, args, taken, scope) && h.guards != []
    requires Bound(h, vals, AllEdits(h, args, taken), ei)
    requires GuardsOrdered(w, h.guards, OwnScope(h, vals), mem)
    ensures var own := OwnScope(h, vals);
            var g := RunGuards(w, h.guards, own, mem);
            var r := Eval(w, SubstE(CombineTree(h.guards), AllEdits(h, args, taken)), ei, mem);
            g.env == own && r.env == ei && r.mem == g.mem &&
            (match g
             case Pass(_, _) => r.out.Normal? && Truthy(r.out.v)
             case Return(_, _) => r.out.Normal? && !Truthy(r.out.v)
             case GuardThrow(v, _, _) => r.out == Throw(v))
  {
    var own := OwnScope(h, vals);
    var th := AllEdits(h, args, taken);
    var c := Ctx(th, BodyFree(h), Capturing(h), ei);
    var cond := CombineTree(h.guards);
    CombineTreeRunsGuards(w, h.guards, own, mem);
    AllSpareMore(h.guards, ParamSet(h), Decls(h.tail));
    OwnNames(h, vals);
    AllSpareLess(h.guards, ParamSet(h) + Decls(h.tail), Names(own));
    GuardsUntouched(w, h.guards, own, mem);
    GuardedRelated(h, args, taken, scope, vals, ei);
    EditsFresh(h, args, taken);
    CombineTreeNames(h.guards, ParamSet(h));
    SparesLess(cond, ParamSet(h), ReadOnly(th));
    SimEval(w, cond, 0, c, own, ei, mem);
    RelatedUnchanged(c, own, Eval(w, SubstE(cond, th), ei, mem).env);
  }

  lemma {:induction false} JoinNames(op: BinOp, l: Expr, r: Expr, p: set<string>)
    ensures ExprNames(Join(op, l, r)) == ExprNames(l) + ExprNames(r)
    ensures Spares(Join(op, l, r), p) <==> Spares(l, p) && Spares(r, p)
    decreases r
  {
    if r.Bin? && r.op == op { JoinNames(op, l, r.l, p); }
  }

  /** Inverting keeps the names of an expression and the names it assigns. */
  lemma {:induction false} NegTreeNames(e: Expr, p: set<string>)
    ensures ExprNames(NegTree(e)) == ExprNames(e)
    ensures Spares(NegTree(e), p) <==> Spares(e, p)
  {
    match e
    case Paren(x) => NegTreeNames(x, p);
    case Bin(op, a, b) =>
      if op == And || op == Or {
        NegTreeNames(a, p);
        NegTreeNames(b, p);
        JoinNames(Or, NegTree(a), NegTree(b), p);
        JoinNames(And, Tight(NegTree(a), NegPrec(a)), Tight(NegTree(b), NegPrec(b)), p);
      }
    case _ =>
  }

  lemma {:induction false} CombineFromNames(acc: Expr, guards: seq<Expr>, p: set<string>)
    requires Spares(acc, p) && AllSpare(guards, p)
    ensures ExprNames(CombineFrom(acc, guards)) == ExprNames(acc) + ExprsNames(guards)
    ensures Spares(CombineFrom(acc, guards), p)
    decreases guards
  {
    if guards != [] {
      var part := Tight(NegTree(guards[0]), NegPrec(guards[0]));
      NegTreeNames(guards[0], p);
      JoinNames(And, acc, part, p);
      CombineFromNames(Join(And, acc, part), guards[1..], p);
    }
  }

  lemma {:induction false} CombineTreeNames(guards: seq<Expr>, p: set<string>)
    requires guards != [] && AllSpare(guards, p)
    ensures ExprNames(CombineTree(guards)) == ExprsNames(guards) && Spares(CombineTree(guards), p)
  {
    NegTreeNames(guards[0], p);
    if |guards| > 1 {
      CombineFromNames(Tight(NegTree(guards[0]), NegPrec(guards[0])), guards[1..], p);
    }
  }

  /** Helper body against guarded statement. */
  lemma {:induction false} GuardedBody(w: World, fuel: nat, h: Helper, args: seq<Expr>, taken: set<string>,
                                       scope: set<string>,
                    vals: seq<Value>, ei: Env, mem: Mem)
    requires WellFormed(h) && Accepted(h, args, scope) && Hygienic(h, args, taken, scope) && h.guards != []
    requires Bound(h, vals, AllEdits(h, args, taken), ei)
    requires GuardsOrdered(w, h.guards, OwnScope(h, vals), mem)
    ensures var th := AllEdits(h, args, taken);
            var call := RunBody(w, fuel, h, OwnScope(h, vals), mem);
            var inl := Exec(w, fuel, If(SubstE(CombineTree(h.guards), th), SubstSeq(h.tail, th), []), ei, mem);
            call.out == inl.out && call.mem == inl.mem && OnlyOwnedChanged(th, inl.env, ei)
  {
    var th := AllEdits(h, args, taken);
    var c := Ctx(th, BodyFree(h), Capturing(h), ei);
    var own := OwnScope(h, vals);
    var g := RunGuards(w, h.guards, own, mem);
    GuardPhase(w, h, args, taken, scope, vals, ei, mem);
    if g.Pass? {
      GuardedRelated(h, args, taken, scope, vals, ei);
      EditsFresh(h, args, taken);
      assert th - Decls(h.tail) == th;
      SeqSparesLess(h.tail, ParamSet(h), ReadOnly(th) - Decls(h.tail));
      SimBlock(w, fuel, h.tail, 0, c, own.outer, ei, g.mem);
    } else {
      EmptyBlock(w, fuel, ei, g.mem);
    }
  }

  lemma {:induction false} EmptyBlock(w: World, fuel: nat, env: Env, mem: Mem)
    ensures ExecBlock(w, fuel, [], env, mem) == Run(Done, env, mem)
  {
  }

  /** The slots of a guardless tail's locals, still in the dead zone. */
  ghost predicate LocalsReady(h: Helper, th: Subst, ei: Env) {
    ei.Scope? &&
    forall n <- Decls(h.tail) :: n in th && th[n].Local? && th[n].name in ei.vars && ei.vars[th[n].name] == Tdz
  }

  lemma GuardlessRelated(h: Helper, args: seq<Expr>, taken: set<string>, scope: set<string>, vals: seq<Value>, ei: Env)
    requires WellFormed(h) && Accepted(h, args, scope) && Hygienic(h, args, taken, scope) && h.guards == []
    requires Bound(h, vals, AllEdits(h, args, taken), ei) && LocalsReady(h, AllEdits(h, args, taken), ei)
    ensures Related(Ctx(AllEdits(h, args, taken), SeqOcc(h.tail), SeqNested(h.tail), ei), OwnScope(h, vals), ei)
  {
    var th := AllEdits(h, args, taken);
    var c := Ctx(th, SeqOcc(h.tail), SeqNested(h.tail), ei);
    var own := OwnScope(h, vals);
    EditsFresh(h, args, taken);
    DeclsOccur(h.tail);
    assert BodyFree(h) == SeqOcc(h.tail) - Decls(h.tail);
    assert Capturing(h) == c.nested;
    ParamKeys(h.params, vals);
    forall n <- c.free ensures NameRelated(c, n, own, ei) {
      LookupNames(ei, n);
      assert Lookup(own.outer, n) == if n in own.outer.vars then Some(own.outer.vars[n]) else None;
      if n !in Decls(h.tail) { assert n in BodyFree(h); }
    }
  }

  /** Helper body against a guardless tail spliced into the block. */
  lemma {:induction false} GuardlessBody(w: World, fuel: nat, h: Helper, args: seq<Expr>, taken: set<string>,
                                         scope: set<string>,
                      vals: seq<Value>, ei: Env, mem: Mem)
    requires WellFormed(h) && Accepted(h, args, scope) && Hygienic(h, args, taken, scope) && h.guards == []
    requires Bound(h, vals, AllEdits(h, args, taken), ei) && LocalsReady(h, AllEdits(h, args, taken), ei)
    ensures var th := AllEdits(h, args, taken);
            var call := RunBody(w, fuel, h, OwnScope(h, vals), mem);
            var inl := ExecSeq(w, fuel, SubstSeq(h.tail, th), ei, mem);
            call.out == inl.out && call.mem == inl.mem && OnlyOwnedChanged(th, inl.env, ei)
  {
    var th := AllEdits(h, args, taken);
    var c := Ctx(th, SeqOcc(h.tail), SeqNested(h.tail), ei);
    GuardlessRelated(h, args, taken, scope, vals, ei);
    EditsFresh(h, args, taken);
    DeclsOccur(h.tail);
    SeqSparesLess(h.tail, ParamSet(h), ReadOnly(th));
    SimSeq(w, fuel, h.tail, 0, c, OwnScope(h, vals), ei, mem);
  }

  lemma {:induction false} SubstDeclsRenamed(ss: seq<Stmt>, th: Subst)
    requires forall n <- Decls(ss) :: n in th && th[n].Local?
    ensures Decls(SubstSeq(ss, th)) == set n | n in Decls(ss) :: th[n].name
    decreases ss
  {
    if ss != [] {
      SubstDeclsRenamed(ss[1..], th);
      var out := SubstSeq(ss, th);
      assert out == [SubstS(ss[0], th)] + SubstSeq(ss[1..], th);
      assert out[0] == SubstS(ss[0], th) && out[1..] == SubstSeq(ss[1..], th);
      var tail := set n | n in Decls(ss[1..]) :: th[n].name;
      if ss[0].Const? {
        assert out[0].name == th[ss[0].name].name;
        assert Decls(out) == {th[ss[0].name].name} + tail;
        assert Decls(ss) == {ss[0].name} + Decls(ss[1..]);
      } else {
        assert Decls(out) == tail;
        assert Decls(ss) == Decls(ss[1..]);
      }
    }
  }

  /** The statements that get inserted declare exactly the names the edits introduce. */
  lemma InsertedStatements(h: Helper, args: seq<Expr>, taken: set<string>) returns (body: seq<Stmt>)
    requires WellFormed(h)
    ensures var repl := Replace(h, args, taken);
            var th := AllEdits(h, args, taken);
            && body == (if h.guards != [] then [If(SubstE(CombineTree(h.guards), th), SubstSeq(h.tail, th), [])]
                        else SubstSeq(h.tail, th))
            && Statements(repl) == Some(repl.prefix + body)
            && Decls(repl.prefix + body) == Range(th)
  {
    var plan := PlanFrom(h.params, BodyFree(h), args, 0, taken);
    var th := AllEdits(h, args, taken);
    EditsFresh(h, args, taken);
    if h.guards != [] {
      CombineGuardsParses(h.guards, th);
      body := [If(SubstE(CombineTree(h.guards), th), SubstSeq(h.tail, th), [])];
      assert body[1..] == [];
    } else {
      body := SubstSeq(h.tail, th);
      SubstDeclsRenamed(h.tail, th);
      var renames := RenameFrom(h.tail, plan.taken);
      RenameFresh(h.tail, plan.taken);
      RangeThen(plan.th, renames);
      assert Decls(body) == Range(renames);
    }
    DeclsAppend(plan.prefix, body);
  }

  /** The caller's block after the prefix. */
  ghost predicate AfterPrefix(h: Helper, args: seq<Expr>, taken: set<string>, scope: set<string>, vals: seq<Value>,
                              ea: Env, t: Frame, ei: Env) {
    var th, plan := AllEdits(h, args, taken), PlanFrom(h.params, BodyFree(h), args, 0, taken);
    && Adds(ea, t, ei) && Names(ea) == scope && t.Keys == Range(th) && |vals| == |args|
    && (forall x <- t :: x !in Range(plan.th) ==> t[x] == Tdz)
    && |args| <= |h.params| && Holds(h.params, BodyFree(h), args, 0, plan.th, vals, t)
  }

  lemma {:induction false} LocalsAreReady(h: Helper, args: seq<Expr>, taken: set<string>, scope: set<string>,
                                          vals: seq<Value>,
                   ea: Env, t: Frame, ei: Env)
    requires WellFormed(h) && Accepted(h, args, scope) && Hygienic(h, args, taken, scope) && h.guards == []
    requires AfterPrefix(h, args, taken, scope, vals, ea, t, ei)
    ensures LocalsReady(h, AllEdits(h, args, taken), ei)
  {
    var th := AllEdits(h, args, taken);
    EditsFresh(h, args, taken);
    forall n | n in Decls(h.tail)
      ensures n in th && th[n].Local? && th[n].name in ei.vars && ei.vars[th[n].name] == Tdz
    {
      assert th[n].name in Range(th);
    }
  }

  lemma {:induction false} FreeNamesOutside(h: Helper, args: seq<Expr>, taken: set<string>, scope: set<string>,
                                            vals: seq<Value>,
                   ea: Env, t: Frame, ei: Env)
    requires WellFormed(h) && Accepted(h, args, scope) && Hygienic(h, args, taken, scope)
    requires AfterPrefix(h, args, taken, scope, vals, ea, t, ei)
    ensures ei.Scope? && (BodyFree(h) - ParamSet(h)) !! Names(ei)
  {
    EditsFresh(h, args, taken);
    FreeNamesNotInScope(h, args, taken, scope);
    assert Names(ei) == scope + Range(AllEdits(h, args, taken));
  }

  lemma ParamIsReady(h: Helper, args: seq<Expr>, taken: set<string>, scope: set<string>, vals: seq<Value>,
                   ea: Env, t: Frame, ei: Env, p: string)
    requires WellFormed(h) && Accepted(h, args, scope) && Hygienic(h, args, taken, scope)
    requires AfterPrefix(h, args, taken, scope, vals, ea, t, ei)
    requires p in ParamSet(h) * BodyFree(h)
    ensures ei.Scope? && ParamReady(h, vals, AllEdits(h, args, taken), ei, p)
  {
    var th, plan := AllEdits(h, args, taken), PlanFrom(h.params, BodyFree(h), args, 0, taken);
    EditsFresh(h, args, taken);
    ParamLookup(h, args, vals, plan.th, t, p);
    assert th[p] == plan.th[p];
  }

  /** After the prefix the caller's block satisfies what the body needs. */
  lemma BlockReady(h: Helper, args: seq<Expr>, taken: set<string>, scope: set<string>, vals: seq<Value>,
                   ea: Env, t: Frame, ei: Env)
    requires WellFormed(h) && Accepted(h, args, scope) && Hygienic(h, args, taken, scope)
    requires AfterPrefix(h, args, taken, scope, vals, ea, t, ei)
    ensures Bound(h, vals, AllEdits(h, args, taken), ei)
    ensures h.guards == [] ==> LocalsReady(h, AllEdits(h, args, taken), ei)
  {
    FreeNamesOutside(h, args, taken, scope, vals, ea, t, ei);
    forall p | p in ParamSet(h) * BodyFree(h) ensures ParamReady(h, vals, AllEdits(h, args, taken), ei, p) {
      ParamIsReady(h, args, taken, scope, vals, ea, t, ei, p);
    }
    if h.guards == [] { LocalsAreReady(h, args, taken, scope, vals, ea, t, ei); }
  }

  /** In strict-effects mode the replacement does what the call did: for every helper, every
      argument list, every start state and every behaviour of the outside world, the
      arguments are evaluated once each from left to right, the inverted condition guards
      the tail, and completion, module state, effect trace and the caller's own variables
      come out the same. */
  lemma {:induction false} InlineIsExact(w: World, fuel: nat, h: Helper, args: seq<Expr>, taken: set<string>,
                                         caller: Env, mem: Mem)
    requires caller.Scope? && caller.vars.Keys + ExprsNames(args) <= taken
    requires WellFormed(h) && Accepted(h, args, Names(caller)) && Hygienic(h, args, taken, Names(caller))
    requires CallOrdered(w, h, args, caller, mem)
    ensures var inserted := Statements(Replace(h, args, taken));
            inserted.Some? &&
            SameRun(CallHelper(w, fuel, h, args, caller, mem), RunInBlock(w, fuel, inserted.value, caller, mem),
                    Range(AllEdits(h, args, taken)))
  {
    var th := AllEdits(h, args, taken);
    var prefix := Replace(h, args, taken).prefix;
    var body := InsertedStatements(h, args, taken);
    EditsFresh(h, args, taken);
    var ei := Scope(caller.vars + DeadZone(Range(th)), caller.outer);
    var t' := PrefixPhase(w, fuel, h, args, taken, caller, mem);
    ExecAppend(w, fuel, prefix, body, ei, mem);
    var a := EvalList(w, args, caller, mem);
    if a.Args? {
      var r := ExecSeq(w, fuel, prefix, ei, mem);
      BodyPhase(w, fuel, h, args, taken, Names(caller), a.vals, a.env, t', r.env, a.mem, body);
    }
  }

  /** The same with a condition on the text alone: no guard has a `<`, `>`, `<=` or `>=` that
      inverting it flips. Then the call is exact in every world and every state. */
  lemma {:induction false} InlineIsExactWithoutFlips(w: World, fuel: nat, h: Helper, args: seq<Expr>,
                                                     taken: set<string>, caller: Env, mem: Mem)
    requires caller.Scope? && caller.vars.Keys + ExprsNames(args) <= taken
    requires WellFormed(h) && Accepted(h, args, Names(caller)) && Hygienic(h, args, taken, Names(caller))
    requires forall g <- h.guards :: FlipsNone(g)
    ensures var inserted := Statements(Replace(h, args, taken));
            inserted.Some? &&
            SameRun(CallHelper(w, fuel, h, args, caller, mem), RunInBlock(w, fuel, inserted.value, caller, mem),
                    Range(AllEdits(h, args, taken)))
  {
    var a := EvalList(w, args, caller, mem);
    if a.Args? { FlipsNoneGuardsOrdered(w, h.guards, OwnScope(h, a.vals), a.mem); }
    InlineIsExact(w, fuel, h, args, taken, caller, mem);
  }

  lemma PrefixPhase(w: World, fuel: nat, h: Helper, args: seq<Expr>, taken: set<string>, caller: Env, mem: Mem)
    returns (t': Frame)
    requires caller.Scope? && caller.vars.Keys + ExprsNames(args) <= taken
    requires WellFormed(h) && |args| <= |h.params|
    ensures var th := AllEdits(h, args, taken);
            var ei := Scope(caller.vars + DeadZone(Range(th)), caller.outer);
            PrefixRun(w, fuel, h.params, BodyFree(h), args, 0, taken, caller, DeadZone(Range(th)), ei, mem, t')
    ensures ArgsFrom(args, 0) == args
  {
    var t := DeadZone(Range(AllEdits(h, args, taken)));
    EditsFresh(h, args, taken);
    assert ArgsFrom(args, 0) == args;
    t' := PrefixRuns(w, fuel, h.params, BodyFree(h), args, 0, taken, caller, t,
                     Scope(caller.vars + t, caller.outer), mem);
  }

  lemma {:induction false} BodyPhase(w: World, fuel: nat, h: Helper, args: seq<Expr>, taken: set<string>,
                                     scope: set<string>,
                  vals: seq<Value>, ea: Env, t: Frame, ei: Env, mem: Mem, body: seq<Stmt>)
    requires WellFormed(h) && Accepted(h, args, scope) && Hygienic(h, args, taken, scope)
    requires var th := AllEdits(h, args, taken);
             var plan := PlanFrom(h.params, BodyFree(h), args, 0, taken);
             && Adds(ea, t, ei) && Names(ea) == scope && t.Keys == Range(th) && |vals| == |args|
             && (forall x <- t :: x !in Range(plan.th) ==> t[x] == Tdz)
             && Holds(h.params, BodyFree(h), args, 0, plan.th, vals, t)
             && body == (if h.guards != [] then [If(SubstE(CombineTree(h.guards), th), SubstSeq(h.tail, th), [])]
                         else SubstSeq(h.tail, th))
    requires GuardsOrdered(w, h.guards, OwnScope(h, vals), mem)
    ensures var call := RunBody(w, fuel, h, OwnScope(h, vals), mem);
            SameRun(call.(env := ea), ExecSeq(w, fuel, body, ei, mem), t.Keys)
  {
    BlockReady(h, args, taken, scope, vals, ea, t, ei);
    if h.guards != [] {
      GuardedBody(w, fuel, h, args, taken, scope, vals, ei, mem);
      RunCons(w, fuel, body[0], [], ei, mem);
    } else {
      GuardlessBody(w, fuel, h, args, taken, scope, vals, ei, mem);
    }
  }
}

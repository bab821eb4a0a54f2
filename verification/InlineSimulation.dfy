/** Code of a helper, run in the helper's own scope, against the substituted code run in the
    caller's scope. Both runs share the frames that nested blocks push; below those, the
    helper's scope and the caller's block are related by the substitution. */
module InlineSimulation {
  import opened Common
  import opened InlineSyntax
  import opened InlineSemantics
  import opened InlineSubst

  /** `free` are the names the code may use from the related scopes, `nested` the names its
      nested blocks may declare, `base` the caller's scope chain before the run. */
  datatype Ctx = Ctx(th: Subst, free: set<string>, nested: set<string>, base: Env)

  ghost function Range(th: Subst): set<string> {
    set n | n in th && !th[n].Undef? :: th[n].name
  }

  ghost function ReadOnly(th: Subst): set<string> {
    set n | n in th && !th[n].Local?
  }

  ghost predicate Injective(th: Subst) {
    forall n <- th, m <- th :: n != m && !th[n].Undef? && !th[m].Undef? ==> th[n].name != th[m].name
  }

  /** The caller's chain `ei` is still `base`, apart from the slots the substitution owns. */
  ghost predicate OnlyOwnedChanged(th: Subst, ei: Env, base: Env) {
    ei.Scope? && base.Scope? && ei.outer == base.outer && ei.vars.Keys == base.vars.Keys &&
    forall x <- ei.vars :: x !in Range(th) ==> ei.vars[x] == base.vars[x]
  }

  ghost predicate NameRelated(c: Ctx, n: string, eh: Env, ei: Env) {
    if n !in c.th then Lookup(eh, n) == None && Lookup(ei, n) == None
    else if c.th[n].Undef? then Lookup(eh, n) == Some(Live(Undefined))
    else
      var m := c.th[n].name;
      ei.Scope? && m in ei.vars && Lookup(eh, n) == Some(ei.vars[m]) && (m == n || m !in c.nested)
  }

  ghost predicate Related(c: Ctx, eh: Env, ei: Env) {
    OnlyOwnedChanged(c.th, ei, c.base) && c.th.Keys <= c.free && Injective(c.th) &&
    forall n <- c.free :: NameRelated(c, n, eh, ei)
  }

  /** The two scopes agree on the top `k` frames and are related below. */
  ghost predicate Sim(k: nat, c: Ctx, eh: Env, ei: Env) {
    if k == 0 then Related(c, eh, ei)
    else
      eh.Scope? && ei.Scope? && eh.vars == ei.vars && eh.vars.Keys <= c.nested &&
      Sim(k - 1, c, eh.outer, ei.outer)
  }

  /** The part of the substitution not shadowed by the shared frames. */
  ghost function Cur(k: nat, c: Ctx, eh: Env): Subst {
    if k == 0 || eh.Empty? then c.th else Cur(k - 1, c, eh.outer) - eh.vars.Keys
  }

  ghost function Known(k: nat, c: Ctx, eh: Env): set<string> {
    if k == 0 || eh.Empty? then c.free else Known(k - 1, c, eh.outer) + eh.vars.Keys
  }

  ghost predicate SameFrames(k: nat, a: Env, b: Env) {
    a.Scope? == b.Scope? && (a.Scope? ==> a.vars.Keys == b.vars.Keys) &&
    (k > 0 && a.Scope? ==> SameFrames(k - 1, a.outer, b.outer))
  }

  lemma {:induction false} SameFramesTrans(k: nat, a: Env, b: Env, d: Env)
    requires SameFrames(k, a, b) && SameFrames(k, b, d)
    ensures SameFrames(k, a, d)
  {
    if k > 0 && a.Scope? { SameFramesTrans(k - 1, a.outer, b.outer, d.outer); }
  }

  lemma {:induction false} SameFramesCur(k: nat, c: Ctx, a: Env, b: Env)
    requires SameFrames(k, a, b)
    ensures Cur(k, c, a) == Cur(k, c, b) && Known(k, c, a) == Known(k, c, b)
  {
    if k > 0 && a.Scope? { SameFramesCur(k - 1, c, a.outer, b.outer); }
  }

  lemma {:induction false} SameFramesRefl(k: nat, a: Env)
    ensures SameFrames(k, a, a)
  {
    if k > 0 && a.Scope? { SameFramesRefl(k - 1, a.outer); }
  }

  lemma {:induction false} LookupStore(env: Env, n: string, v: Value, x: string)
    requires Lookup(env, n).Some?
    ensures Lookup(Store(env, n, v), x) == if x == n then Some(Live(v)) else Lookup(env, x)
  {
    if n !in env.vars { LookupStore(env.outer, n, v, x); }
  }

  /** An identifier of the helper and what replaces it name the same slot, or the same
      module global. */
  lemma {:induction false} SimLookup(k: nat, c: Ctx, eh: Env, ei: Env, n: string)
    requires Sim(k, c, eh, ei) && n in Known(k, c, eh)
    ensures var cur := Cur(k, c, eh);
            if n in cur && cur[n].Undef? then Lookup(eh, n) == Some(Live(Undefined))
            else Lookup(eh, n) == Lookup(ei, SubstName(n, cur)) && (n in cur ==> Lookup(eh, n).Some?)
  {
    if k > 0 && n !in eh.vars {
      SimLookup(k - 1, c, eh.outer, ei.outer, n);
      SimNoCapture(k, c, eh, ei);
      NotCaptured(k - 1, c, eh.outer, n);
    } else if k == 0 {
      assert NameRelated(c, n, eh, ei);
    }
  }

  lemma {:induction false} NotCaptured(k: nat, c: Ctx, eh: Env, n: string)
    requires forall x <- c.th :: !c.th[x].Undef? ==> c.th[x].name == x || c.th[x].name !in c.nested
    ensures var cur := Cur(k, c, eh);
            n in cur && !cur[n].Undef? ==> cur[n].name == n || cur[n].name !in c.nested
  {
    if k > 0 && eh.Scope? { NotCaptured(k - 1, c, eh.outer, n); }
  }

  lemma {:induction false} SimNoCapture(k: nat, c: Ctx, eh: Env, ei: Env)
    requires Sim(k, c, eh, ei)
    ensures forall x <- c.th :: !c.th[x].Undef? ==> c.th[x].name == x || c.th[x].name !in c.nested
  {
    if k > 0 { SimNoCapture(k - 1, c, eh.outer, ei.outer); }
    else {
      forall x <- c.th | !c.th[x].Undef? ensures c.th[x].name == x || c.th[x].name !in c.nested {
        assert NameRelated(c, x, eh, ei);
      }
    }
  }

  lemma {:induction false} SimStore(k: nat, c: Ctx, eh: Env, ei: Env, n: string, v: Value)
    requires Sim(k, c, eh, ei) && n in Known(k, c, eh)
    requires Lookup(eh, n).Some?
    requires var cur := Cur(k, c, eh); n in cur ==> !cur[n].Undef?
    ensures Sim(k, c, Store(eh, n, v), Store(ei, SubstName(n, Cur(k, c, eh)), v))
    ensures SameFrames(k, eh, Store(eh, n, v))
  {
    if k == 0 {
      assert NameRelated(c, n, eh, ei);
      var eh', ei' := Store(eh, n, v), Store(ei, SubstName(n, c.th), v);
      forall x <- c.free ensures NameRelated(c, x, eh', ei') {
        assert NameRelated(c, x, eh, ei);
        LookupStore(eh, n, v, x);
      }
    } else if n !in eh.vars {
      SimStore(k - 1, c, eh.outer, ei.outer, n, v);
      SimNoCapture(k, c, eh, ei);
      NotCaptured(k - 1, c, eh.outer, n);
    } else {
      SameFramesRefl(k - 1, eh.outer);
    }
  }

  // ---------- Expressions ----------

  ghost predicate SimRes(k: nat, c: Ctx, eh: Env, rh: Res, ri: Res) {
    rh.out == ri.out && rh.mem == ri.mem && Sim(k, c, rh.env, ri.env) && SameFrames(k, eh, rh.env)
  }

  ghost predicate SimArgs(k: nat, c: Ctx, eh: Env, rh: Args, ri: Args) {
    rh.mem == ri.mem && Sim(k, c, rh.env, ri.env) && SameFrames(k, eh, rh.env) &&
    match rh
    case Args(vals, _, _) => ri.Args? && ri.vals == vals
    case ArgThrow(v, _, _) => ri.ArgThrow? && ri.v == v
  }

  lemma {:induction false} SimEval(w: World, e: Expr, k: nat, c: Ctx, eh: Env, ei: Env, mem: Mem)
    requires Sim(k, c, eh, ei) && ExprNames(e) <= Known(k, c, eh)
    requires Spares(e, ReadOnly(Cur(k, c, eh)))
    ensures SimRes(k, c, eh, Eval(w, e, eh, mem), Eval(w, SubstE(e, Cur(k, c, eh)), ei, mem))
    decreases e, 1
  {
    var cur := Cur(k, c, eh);
    SameFramesRefl(k, eh);
    match e
    case Lit(_) =>
    case Id(n) => SimLookup(k, c, eh, ei, n);
    case Call(_, args) => SimEvalList(w, args, k, c, eh, ei, mem);
    case Not(x) => SimEval(w, x, k, c, eh, ei, mem);
    case Paren(x) => SimEval(w, x, k, c, eh, ei, mem);
    case Assign(n, rhs) =>
      SimEval(w, rhs, k, c, eh, ei, mem);
      SimWrite(k, c, eh, Eval(w, rhs, eh, mem), Eval(w, SubstE(rhs, cur), ei, mem), n);
    case Bin(op, a, b) =>
      SimEval(w, a, k, c, eh, ei, mem);
      var rh, ri := Eval(w, a, eh, mem), Eval(w, SubstE(a, cur), ei, mem);
      SameFramesCur(k, c, eh, rh.env);
      if rh.out.Normal? {
        SimEval(w, b, k, c, rh.env, ri.env, rh.mem);
        SameFramesTrans(k, eh, rh.env, Eval(w, b, rh.env, rh.mem).env);
      }
  }

  lemma {:induction false} SimWrite(k: nat, c: Ctx, eh: Env, rh: Res, ri: Res, n: string)
    requires SimRes(k, c, eh, rh, ri) && n in Known(k, c, eh)
    requires n !in ReadOnly(Cur(k, c, eh))
    ensures rh.out.Normal? ==>
              SimRes(k, c, eh, WriteId(n, rh.out.v, rh.env, rh.mem),
                     WriteId(SubstName(n, Cur(k, c, eh)), ri.out.v, ri.env, ri.mem))
  {
    SameFramesCur(k, c, eh, rh.env);
    SimLookup(k, c, rh.env, ri.env, n);
    if rh.out.Normal? && Lookup(rh.env, n).Some? {
      SimStore(k, c, rh.env, ri.env, n, rh.out.v);
      SameFramesTrans(k, eh, rh.env, Store(rh.env, n, rh.out.v));
    }
  }

  lemma {:induction false} SimEvalList(w: World, es: seq<Expr>, k: nat, c: Ctx, eh: Env, ei: Env, mem: Mem)
    requires Sim(k, c, eh, ei) && ExprsNames(es) <= Known(k, c, eh)
    requires AllSpare(es, ReadOnly(Cur(k, c, eh)))
    ensures SimArgs(k, c, eh, EvalList(w, es, eh, mem), EvalList(w, SubstEs(es, Cur(k, c, eh)), ei, mem))
    decreases es, 0
  {
    var cur := Cur(k, c, eh);
    SameFramesRefl(k, eh);
    if es != [] {
      SimEval(w, es[0], k, c, eh, ei, mem);
      var rh, ri := Eval(w, es[0], eh, mem), Eval(w, SubstE(es[0], cur), ei, mem);
      SameFramesCur(k, c, eh, rh.env);
      SimEvalList(w, es[1..], k, c, rh.env, ri.env, rh.mem);
      SameFramesTrans(k, eh, rh.env, EvalList(w, es[1..], rh.env, rh.mem).env);
      assert SubstEs(es, cur)[1..] == SubstEs(es[1..], cur);
    }
  }

  // ---------- Statements ----------

  ghost predicate SimRun(k: nat, c: Ctx, eh: Env, rh: Run, ri: Run) {
    rh.out == ri.out && rh.mem == ri.mem && Sim(k, c, rh.env, ri.env) && SameFrames(k, eh, rh.env)
  }

  /** The innermost frame has a slot for every name the code declares; in the related scope
      it must be one the substitution may write. */
  ghost predicate Declarable(k: nat, c: Ctx, names: set<string>, eh: Env) {
    names != {} ==>
      eh.Scope? && names <= eh.vars.Keys && (k == 0 ==> forall n <- names :: n in c.th && c.th[n].Local?)
  }

  ghost predicate Runnable(k: nat, c: Ctx, occ: set<string>, nested: set<string>, decls: set<string>, eh: Env) {
    occ <= Known(k, c, eh) && nested <= c.nested && decls <= occ && Declarable(k, c, decls, eh)
  }

  lemma {:induction false} SimExec(w: World, fuel: nat, s: Stmt, k: nat, c: Ctx, eh: Env, ei: Env, mem: Mem)
    requires Sim(k, c, eh, ei)
    requires Runnable(k, c, StmtOcc(s), StmtNested(s), if s.Const? then {s.name} else {}, eh)
    requires StmtSpares(s, ReadOnly(Cur(k, c, eh)))
    ensures SimRun(k, c, eh, Exec(w, fuel, s, eh, mem), Exec(w, fuel, SubstS(s, Cur(k, c, eh)), ei, mem))
    decreases fuel, s, 1
  {
    var cur := Cur(k, c, eh);
    match s
    case ExprStmt(e) => SimEval(w, e, k, c, eh, ei, mem);
    case Const(n, e) =>
      SimEval(w, e, k, c, eh, ei, mem);
      var rh, ri := Eval(w, e, eh, mem), Eval(w, SubstE(e, cur), ei, mem);
      if rh.out.Normal? { SimDeclare(k, c, eh, rh.env, ri.env, n, rh.out.v); }
    case If(cond, t, f) =>
      SimEval(w, cond, k, c, eh, ei, mem);
      var rh, ri := Eval(w, cond, eh, mem), Eval(w, SubstE(cond, cur), ei, mem);
      SameFramesCur(k, c, eh, rh.env);
      if rh.out.Normal? {
        var taken := if Truthy(rh.out.v) then t else f;
        SimBlock(w, fuel, taken, k, c, rh.env, ri.env, rh.mem);
        SameFramesTrans(k, eh, rh.env, ExecBlock(w, fuel, taken, rh.env, rh.mem).env);
      }
    case While(cond, b) =>
      SameFramesRefl(k, eh);
      if fuel > 0 {
        SimEval(w, cond, k, c, eh, ei, mem);
        var rh, ri := Eval(w, cond, eh, mem), Eval(w, SubstE(cond, cur), ei, mem);
        SameFramesCur(k, c, eh, rh.env);
        if rh.out.Normal? && Truthy(rh.out.v) {
          SimBlock(w, fuel, b, k, c, rh.env, ri.env, rh.mem);
          var oh := ExecBlock(w, fuel, b, rh.env, rh.mem);
          var oi := ExecBlock(w, fuel, SubstSeq(b, cur - Decls(b)), ri.env, ri.mem);
          SameFramesTrans(k, eh, rh.env, oh.env);
          SameFramesCur(k, c, eh, oh.env);
          if oh.out.Done? {
            SimExec(w, fuel - 1, s, k, c, oh.env, oi.env, oh.mem);
            SameFramesTrans(k, eh, oh.env, Exec(w, fuel - 1, s, oh.env, oh.mem).env);
          }
        }
      }
  }

  lemma {:induction false} SimDeclare(k: nat, c: Ctx, eh: Env, eh1: Env, ei1: Env, n: string, v: Value)
    requires Sim(k, c, eh1, ei1) && SameFrames(k, eh, eh1)
    requires n in Known(k, c, eh) && Declarable(k, c, {n}, eh)
    ensures Sim(k, c, Declare(eh1, n, v), Declare(ei1, SubstName(n, Cur(k, c, eh)), v))
    ensures SameFrames(k, eh, Declare(eh1, n, v))
  {
    SameFramesCur(k, c, eh, eh1);
    SimLookup(k, c, eh1, ei1, n);
    SimStore(k, c, eh1, ei1, n, v);
    SameFramesTrans(k, eh, eh1, Store(eh1, n, v));
    if k == 0 { assert NameRelated(c, n, eh1, ei1); }
  }

  lemma {:induction false} SimSeq(w: World, fuel: nat, ss: seq<Stmt>, k: nat, c: Ctx, eh: Env, ei: Env, mem: Mem)
    requires Sim(k, c, eh, ei)
    requires Runnable(k, c, SeqOcc(ss), SeqNested(ss), Decls(ss), eh)
    requires SeqSpares(ss, ReadOnly(Cur(k, c, eh)))
    ensures SimRun(k, c, eh, ExecSeq(w, fuel, ss, eh, mem), ExecSeq(w, fuel, SubstSeq(ss, Cur(k, c, eh)), ei, mem))
    decreases fuel, ss, 0
  {
    var cur := Cur(k, c, eh);
    SameFramesRefl(k, eh);
    if ss != [] {
      SimExec(w, fuel, ss[0], k, c, eh, ei, mem);
      var rh, ri := Exec(w, fuel, ss[0], eh, mem), Exec(w, fuel, SubstS(ss[0], cur), ei, mem);
      SameFramesCur(k, c, eh, rh.env);
      assert SubstSeq(ss, cur)[1..] == SubstSeq(ss[1..], cur);
      if rh.out.Done? {
        DeclsOccur(ss[1..]);
        SimSeq(w, fuel, ss[1..], k, c, rh.env, ri.env, rh.mem);
        SameFramesTrans(k, eh, rh.env, ExecSeq(w, fuel, ss[1..], rh.env, rh.mem).env);
      }
    }
  }

  lemma {:induction false} DeclsOccur(ss: seq<Stmt>)
    ensures Decls(ss) <= SeqOcc(ss)
    decreases ss
  {
    if ss != [] { DeclsOccur(ss[1..]); }
  }

  lemma {:induction false} SimBlock(w: World, fuel: nat, ss: seq<Stmt>, k: nat, c: Ctx, eh: Env, ei: Env, mem: Mem)
    requires Sim(k, c, eh, ei)
    requires BlockFree(ss) <= Known(k, c, eh) && Decls(ss) + SeqNested(ss) <= c.nested
    requires SeqSpares(ss, ReadOnly(Cur(k, c, eh)) - Decls(ss))
    ensures SimRun(k, c, eh, ExecBlock(w, fuel, ss, eh, mem),
                   ExecBlock(w, fuel, SubstSeq(ss, Cur(k, c, eh) - Decls(ss)), ei, mem))
    decreases fuel, ss, 1
  {
    var cur := Cur(k, c, eh);
    var inner := cur - Decls(ss);
    var eh1, ei1 := Scope(DeadZone(Decls(ss)), eh), Scope(DeadZone(Decls(ss)), ei);
    SubstDecls(ss, inner);
    DeclsOccur(ss);
    assert Cur(k + 1, c, eh1) == inner;
    assert ReadOnly(inner) == ReadOnly(cur) - Decls(ss);
    SimSeq(w, fuel, ss, k + 1, c, eh1, ei1, mem);
  }
}

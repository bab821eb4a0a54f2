/** Each hypothesis of the exactness theorem that the tool does not check is needed: a helper
    and a call the tool accepts, where only that hypothesis fails and the inlined statements
    do something else. */
module InlineLimits {
  import opened Common
  import opened InlineSyntax
  import opened InlineSemantics
  import opened InlineText
  import opened InlineSubst
  import opened InlineNegate
  import opened InlineSimulation
  import opened InlineTransform
  import opened InlineTheorem

  predicate Diverges(w: World, h: Helper, args: seq<Expr>, taken: set<string>, caller: Env, mem: Mem)
    requires caller.Scope?
  {
    var inserted := Statements(Replace(h, args, taken));
    inserted.Some? &&
    var call := CallHelper(w, 0, h, args, caller, mem);
    var inl := RunInBlock(w, 0, inserted.value, caller, mem);
    call.out != inl.out || call.mem.trace != inl.mem.trace
  }

  const NO_SCOPE: Env := Scope(map[], Empty)

  lemma {:induction false} RunOne(w: World, fuel: nat, s: Stmt, env: Env, mem: Mem)
    ensures ExecSeq(w, fuel, [s], env, mem) == Exec(w, fuel, s, env, mem)
  {
    RunCons(w, fuel, s, [], env, mem);
  }

  lemma {:induction false} OneStmt(s: Stmt)
    ensures SeqOcc([s]) == StmtOcc(s) && SeqNested([s]) == StmtNested(s)
    ensures Decls([s]) == if s.Const? then {s.name} else {}
  {
    assert [s][1..] == [];
  }

  lemma {:induction false} OneExpr(e: Expr)
    ensures ExprsNames([e]) == ExprNames(e)
  {
    assert [e][1..] == [];
  }

  lemma {:induction false} OneParam(p: string, vals: seq<Value>)
    ensures ParamFrame([p], vals) == map[p := Live(if |vals| > 0 then vals[0] else Undefined)]
  {
    assert [p][..0] == [];
  }

  const NO_MEM: Mem := Mem(map[], [])

  // `f(a) { if (a < 5) return; t(); }`
  const LESS_THAN_FIVE: Expr := Bin(Lt, Id("a"), Lit(Num(5)))
  const CALL_T: Stmt := ExprStmt(Call("t", []))
  const COMPARING: Helper := Helper(["a"], [LESS_THAN_FIVE], [CALL_T])

  lemma ComparingNames()
    ensures BodyFree(COMPARING) == {"a"} && SeqNested([CALL_T]) == {} && Decls([CALL_T]) == {}
  {
    OneStmt(CALL_T);
    OneExpr(LESS_THAN_FIVE);
  }

  lemma ComparingEdits()
    ensures AllEdits(COMPARING, [], {}) == map["a" := Undef]
  {
    ComparingNames();
  }

  lemma ComparingCall(w: World)
    requires forall tag, vs, m :: w(tag, vs, m).out == Normal(Undefined)
    ensures var call := CallHelper(w, 0, COMPARING, [], NO_SCOPE, NO_MEM);
            call.out == Done && call.mem.trace == [Event("t", [])]
    ensures !CallOrdered(w, COMPARING, [], NO_SCOPE, NO_MEM)
  {
    ComparingNames();
    var own := OwnScope(COMPARING, []);
    OneParam("a", []);
    assert Lookup(own, "a") == Lookup(own.outer, "a") == Some(Live(Undefined));
    assert Eval(w, LESS_THAN_FIVE, own, NO_MEM) == Res(Normal(Bool(false)), own, NO_MEM);
    assert [LESS_THAN_FIVE][1..] == [];
    assert RunGuards(w, COMPARING.guards, own, NO_MEM) == Pass(own, NO_MEM);
    RunOne(w, 0, CALL_T, own, NO_MEM);
    assert EvalList(w, [], own, NO_MEM) == Args([], own, NO_MEM);
  }

  lemma ComparingInlined(w: World)
    ensures var inserted := Statements(Replace(COMPARING, [], {}));
            inserted.Some? && RunInBlock(w, 0, inserted.value, NO_SCOPE, NO_MEM).mem.trace == []
  {
    ComparingEdits();
    ComparingCondition();
    var body := InsertedStatements(COMPARING, [], {});
    var prefix := Replace(COMPARING, [], {}).prefix;
    assert prefix == [];
    assert prefix + body == body;
    FalseGuard(w, body, Bin(Ge, Lit(Undefined), Lit(Num(5))));
  }

  lemma ComparingCondition()
    ensures SubstE(CombineTree(COMPARING.guards), map["a" := Undef]) == Bin(Ge, Lit(Undefined), Lit(Num(5)))
  {
  }

  /** A guarded tail whose condition is the flipped comparison does nothing. */
  lemma FalseGuard(w: World, body: seq<Stmt>, cond: Expr)
    requires |body| == 1 && body[0].If? && body[0].cond == cond == Bin(Ge, Lit(Undefined), Lit(Num(5))) && body[0].els == []
    ensures RunInBlock(w, 0, body, NO_SCOPE, NO_MEM).mem.trace == []
  {
    var env := Scope(NO_SCOPE.vars + DeadZone(Decls(body)), NO_SCOPE.outer);
    assert body == [body[0]];
    RunOne(w, 0, body[0], env, NO_MEM);
    assert Eval(w, cond, env, NO_MEM) == Res(Normal(Bool(false)), env, NO_MEM);
  }

  /** Called as `f()`: `undefined < 5` and its flip `undefined >= 5` are both false, so the
      call runs the tail and the inlined code does not. */
  lemma UnorderedOperandsDiverge(w: World)
    requires forall tag, vs, m :: w(tag, vs, m).out == Normal(Undefined)
    ensures WellFormed(COMPARING) && Accepted(COMPARING, [], {}) && Hygienic(COMPARING, [], {}, {})
    ensures !CallOrdered(w, COMPARING, [], NO_SCOPE, NO_MEM)
    ensures Diverges(w, COMPARING, [], {}, NO_SCOPE, NO_MEM)
  {
    ComparingNames();
    ComparingEdits();
    ComparingCall(w);
    ComparingInlined(w);
    assert [LESS_THAN_FIVE][1..] == [] && [CALL_T][1..] == [];
  }

  // `f(a) { use(a, __inl_a); }`, where `__inl_a` is a variable of the module
  const USE_BOTH: Expr := Call("use", [Id("a"), Id("__inl_a")])
  const USING: Helper := Helper(["a"], [], [ExprStmt(USE_BOTH)])
  const ONE: Expr := Lit(Num(1))
  const MEM_7: Mem := Mem(map["__inl_a" := Num(7)], [])

  lemma {:induction false} TwoArgs(w: World, a: Expr, b: Expr, env: Env, mem: Mem)
    requires a.Id? || a.Lit?
    requires b.Id? || b.Lit?
    requires Eval(w, a, env, mem).out.Normal? && Eval(w, b, env, mem).out.Normal?
    ensures EvalList(w, [a, b], env, mem) == Args([Eval(w, a, env, mem).out.v, Eval(w, b, env, mem).out.v], env, mem)
  {
    assert [a, b][1..] == [b] && [b][1..] == [];
    assert EvalList(w, [b], env, mem) == Args([Eval(w, b, env, mem).out.v], env, mem);
  }

  lemma UsingNames()
    ensures BodyFree(USING) == {"a", "__inl_a"} && SeqNested(USING.tail) == {} && Decls(USING.tail) == {}
  {
    OneStmt(ExprStmt(USE_BOTH));
    assert [Id("a"), Id("__inl_a")][1..] == [Id("__inl_a")];
    OneExpr(Id("__inl_a"));
  }

  lemma UsingEdits()
    ensures PlanFrom(USING.params, BodyFree(USING), [ONE], 0, {}) ==
            Plan([Const("__inl_a", ONE)], map["a" := Temp("__inl_a")], {"__inl_a"})
    ensures AllEdits(USING, [ONE], {}) == map["a" := Temp("__inl_a")]
  {
    UsingNames();
    assert Fresh("__inl_" + "a", {}) == "__inl_a";
    assert RenameFrom(USING.tail, {"__inl_a"}) == map[] by { assert USING.tail[1..] == []; }
  }

  lemma UsingCall(w: World)
    ensures CallHelper(w, 0, USING, [ONE], NO_SCOPE, MEM_7).mem.trace == [Event("use", [Num(1), Num(7)])]
  {
    UsingNames();
    OneParam("a", [Num(1)]);
    assert [ONE][1..] == [];
    assert EvalList(w, [ONE], NO_SCOPE, MEM_7) == Args([Num(1)], NO_SCOPE, MEM_7);
    var own := OwnScope(USING, [Num(1)]);
    assert Lookup(own, "a") == Lookup(own.outer, "a") == Some(Live(Num(1)));
    assert Lookup(own, "__inl_a") == Lookup(own.outer, "__inl_a") == None;
    RunOne(w, 0, ExprStmt(USE_BOTH), own, MEM_7);
    TwoArgs(w, Id("a"), Id("__inl_a"), own, MEM_7);
  }

  const TEMP_1: Expr := Id("__inl_a")
  const DECLARE_TEMP: Stmt := Const("__inl_a", ONE)
  const USE_TEMP: Stmt := ExprStmt(Call("use", [TEMP_1, TEMP_1]))

  lemma UsingStatements()
    ensures Statements(Replace(USING, [ONE], {})) == Some([DECLARE_TEMP, USE_TEMP])
  {
    UsingEdits();
    var th := AllEdits(USING, [ONE], {});
    assert [Id("a"), TEMP_1][1..] == [TEMP_1] && [TEMP_1][1..] == [];
    assert SubstE(Id("a"), th) == TEMP_1 && SubstE(TEMP_1, th) == TEMP_1;
    assert SubstEs([TEMP_1], th) == [TEMP_1];
    assert SubstEs([Id("a"), TEMP_1], th) == [TEMP_1, TEMP_1];
    assert USING.tail[1..] == [];
    assert SubstSeq(USING.tail, th) == [USE_TEMP];
    assert [DECLARE_TEMP] + [USE_TEMP] == [DECLARE_TEMP, USE_TEMP];
  }

  lemma UsingInlined(w: World)
    ensures RunInBlock(w, 0, [DECLARE_TEMP, USE_TEMP], NO_SCOPE, MEM_7).mem.trace == [Event("use", [Num(1), Num(1)])]
  {
    OneStmt(USE_TEMP);
    assert [DECLARE_TEMP, USE_TEMP][1..] == [USE_TEMP];
    var env := Scope(map["__inl_a" := Tdz], Empty);
    assert NO_SCOPE.vars + DeadZone(Decls([DECLARE_TEMP, USE_TEMP])) == env.vars;
    var env1 := Scope(map["__inl_a" := Live(Num(1))], Empty);
    assert env.vars["__inl_a" := Live(Num(1))] == env1.vars;
    assert Exec(w, 0, DECLARE_TEMP, env, MEM_7) == Run(Done, env1, MEM_7);
    RunOne(w, 0, USE_TEMP, env1, MEM_7);
    TwoArgs(w, TEMP_1, TEMP_1, env1, MEM_7);
  }

  /** Called as `f(1)`: the temporary is fresh in the caller's block and captures the body's
      own `__inl_a`. */
  lemma CapturedTemporaryDiverges(w: World)
    ensures WellFormed(USING) && Accepted(USING, [ONE], {}) && CallOrdered(w, USING, [ONE], NO_SCOPE, MEM_7)
    ensures !Hygienic(USING, [ONE], {}, {})
    ensures Diverges(w, USING, [ONE], {}, NO_SCOPE, MEM_7)
  {
    UsingNames();
    UsingEdits();
    UsingCall(w);
    UsingStatements();
    UsingInlined(w);
    assert USING.tail[1..] == [];
    assert [Id("a"), Id("__inl_a")][1..] == [Id("__inl_a")];
    assert [ONE][1..] == [];
    var th := AllEdits(USING, [ONE], {});
    assert "a" in th && th["a"].name in BodyFree(USING) - th.Keys;
  }

  // `f() { if (1) { const y = 2; } use(y); }`, called where the caller has its own `y`
  const LOCAL_Y: seq<Stmt> := [Const("y", Lit(Num(2)))]
  const BRANCH: Stmt := If(ONE, LOCAL_Y, [])
  const USE_Y: Stmt := ExprStmt(Call("use", [Id("y")]))
  const SHADOWING: Helper := Helper([], [], [BRANCH, USE_Y])
  const CALLER_Y: Env := Scope(map["y" := Live(Num(5))], Empty)
  const MEM_Y: Mem := Mem(map["y" := Num(0)], [])

  lemma ShadowingNames()
    ensures BodyFree(SHADOWING) == {"y"} && SeqNested(SHADOWING.tail) == {"y"} && Decls(SHADOWING.tail) == {}
    ensures AllEdits(SHADOWING, [], {"y"}) == map[]
    ensures SubstSeq(SHADOWING.tail, map[]) == SHADOWING.tail
  {
    OneStmt(LOCAL_Y[0]);
    OneStmt(USE_Y);
    OneExpr(Id("y"));
    assert SHADOWING.tail[1..] == [USE_Y] && [USE_Y][1..] == [];
    assert Decls([]) == {} && SeqNested([]) == {} && SeqOcc([]) == {};
    assert StmtNested(BRANCH) == {"y"};
    assert BlockFree(LOCAL_Y) == {};
    assert BlockFree([]) == {} && StmtOcc(BRANCH) == {};
    assert SeqOcc(SHADOWING.tail) == StmtOcc(BRANCH) + SeqOcc([USE_Y]);
    assert ExprsNames(SHADOWING.guards) == {};
    assert RenameFrom(SHADOWING.tail, {"y"}) == RenameFrom([USE_Y], {"y"}) == map[];
    assert SubstSeq(LOCAL_Y, map[]) == LOCAL_Y by { assert LOCAL_Y[1..] == []; }
    var none: Subst := map[];
    assert none - Decls(LOCAL_Y) == none && none - Decls([]) == none;
    assert SubstS(BRANCH, map[]) == BRANCH;
    assert [Id("y")][1..] == [] && SubstS(USE_Y, map[]) == USE_Y;
  }

  /** Running the body in a scope `env` where `y` is bound, or not, to what `use` then sees. */
  lemma {:induction false} ShadowingRun(w: World, env: Env, v: Value)
    requires ReadId("y", env, MEM_Y) == Normal(v)
    ensures ExecSeq(w, 0, SHADOWING.tail, env, MEM_Y).mem.trace == [Event("use", [v])]
  {
    var inner := Scope(DeadZone(Decls(LOCAL_Y)), env);
    RunOne(w, 0, LOCAL_Y[0], inner, MEM_Y);
    assert ExecBlock(w, 0, LOCAL_Y, env, MEM_Y) == Run(Done, env, MEM_Y);
    assert Exec(w, 0, BRANCH, env, MEM_Y) == Run(Done, env, MEM_Y);
    assert SHADOWING.tail == [BRANCH] + [USE_Y];
    RunCons(w, 0, BRANCH, [USE_Y], env, MEM_Y);
    RunOne(w, 0, USE_Y, env, MEM_Y);
    assert EvalList(w, [Id("y")], env, MEM_Y) == Args([v], env, MEM_Y) by { assert [Id("y")][1..] == []; }
  }

  lemma ShadowingAccepted()
    ensures WellFormed(SHADOWING) && Accepted(SHADOWING, [], {"y"})
    ensures !Hygienic(SHADOWING, [], {"y"}, {"y"})
  {
    ShadowingNames();
    var ss := SHADOWING.tail;
    assert ss[1..] == [USE_Y] && [USE_Y][1..] == [];
    assert AllSpare([Id("y")], {}) by { assert [Id("y")][1..] == []; }
    assert StmtSpares(USE_Y, {}) && SeqSpares([USE_Y], {});
    assert StmtSpares(BRANCH, {}) by { assert LOCAL_Y[1..] == []; }
    assert ParamSet(SHADOWING) == {};
    assert "y" in BodyFree(SHADOWING) * SeqNested(ss) * {"y"};
  }

  lemma ShadowingRuns(w: World)
    ensures CallHelper(w, 0, SHADOWING, [], CALLER_Y, MEM_Y).mem.trace == [Event("use", [Num(0)])]
    ensures RunInBlock(w, 0, SHADOWING.tail, CALLER_Y, MEM_Y).mem.trace == [Event("use", [Num(5)])]
    ensures CallOrdered(w, SHADOWING, [], CALLER_Y, MEM_Y)
  {
    ShadowingNames();
    assert CALLER_Y.vars + DeadZone(Decls(SHADOWING.tail)) == CALLER_Y.vars;
    ShadowingRun(w, CALLER_Y, Num(5));
    var own := OwnScope(SHADOWING, []);
    assert Lookup(own, "y") == Lookup(own.outer, "y") == None;
    ShadowingRun(w, own, Num(0));
  }

  /** The free-name analysis is one flat set per helper: a block-local `y` hides the module's
      `y` from the shadow check, and the caller's own `y` is used instead. */
  lemma FlatFreeNamesDiverge(w: World)
    ensures WellFormed(SHADOWING) && Accepted(SHADOWING, [], {"y"}) && CallOrdered(w, SHADOWING, [], CALLER_Y, MEM_Y)
    ensures !Hygienic(SHADOWING, [], {"y"}, {"y"})
    ensures Diverges(w, SHADOWING, [], {"y"}, CALLER_Y, MEM_Y)
  {
    ShadowingNames();
    ShadowingAccepted();
    ShadowingRuns(w);
    assert [] + SHADOWING.tail == SHADOWING.tail;
    assert Statements(Replace(SHADOWING, [], {"y"})) == Some(SHADOWING.tail);
  }

  // `f() { if (y) return; const y = 2; }`
  const EARLY_Y: Helper := Helper([], [Id("y")], LOCAL_Y)

  lemma EarlyNames()
    ensures BodyFree(EARLY_Y) == {"y"} && Decls(LOCAL_Y) == {"y"} && SeqNested(LOCAL_Y) == {}
    ensures SubstSeq(LOCAL_Y, map[]) == LOCAL_Y
    ensures AllEdits(EARLY_Y, [], {}) == map[]
  {
    OneStmt(LOCAL_Y[0]);
    OneExpr(Id("y"));
    assert LOCAL_Y[1..] == [];
  }

  const NOT_Y: Expr := Not(Paren(Id("y")))
  const GUARDED: Stmt := If(NOT_Y, LOCAL_Y, [])

  lemma EarlyStatements()
    ensures Statements(Replace(EARLY_Y, [], {})) == Some([GUARDED])
  {
    EarlyNames();
    EarlyCondition();
    var body := InsertedStatements(EARLY_Y, [], {});
    assert [] + [GUARDED] == [GUARDED];
  }

  lemma EarlyCondition()
    ensures CombineTree(EARLY_Y.guards) == NOT_Y && SubstE(NOT_Y, map[]) == NOT_Y
  {
  }

  lemma EarlyInlined(w: World)
    ensures RunInBlock(w, 0, [GUARDED], NO_SCOPE, MEM_Y).out == Done
  {
    OneStmt(GUARDED);
    var env := Scope(NO_SCOPE.vars + DeadZone({}), Empty);
    assert Lookup(env, "y") == Lookup(env.outer, "y") == None;
    assert Eval(w, NOT_Y, env, MEM_Y).out == Normal(Bool(true));
    RunOne(w, 0, GUARDED, env, MEM_Y);
    RunOne(w, 0, LOCAL_Y[0], Scope(DeadZone(Decls(LOCAL_Y)), env), MEM_Y);
  }

  /** A guard that reads a local of the tail always throws in the helper, the local being in
      its dead zone; inverted and hoisted out of the tail's scope it reads the module's `y`. */
  lemma EarlyReadDiverges(w: World)
    ensures WellFormed(EARLY_Y) && Accepted(EARLY_Y, [], {}) && CallOrdered(w, EARLY_Y, [], NO_SCOPE, MEM_Y)
    ensures !Hygienic(EARLY_Y, [], {}, {})
    ensures Diverges(w, EARLY_Y, [], {}, NO_SCOPE, MEM_Y)
  {
    EarlyNames();
    EarlyStatements();
    EarlyInlined(w);
    var own := OwnScope(EARLY_Y, []);
    assert Lookup(own, "y") == Some(Tdz);
    assert [Id("y")][1..] == [] && LOCAL_Y[1..] == [];
    assert RunGuards(w, EARLY_Y.guards, own, MEM_Y) == GuardThrow(REFERENCE_ERROR, own, MEM_Y);
  }
}

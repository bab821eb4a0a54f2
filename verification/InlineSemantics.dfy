/** Evaluation of the fragment: left-to-right operands and arguments (sections 13.3.8 and
    13.15 of ECMA-262), short-circuit `&&`/`||` (section 13.13), exceptions, block scopes
    with a temporal dead zone (section 14.2.3), and calls of a void helper. */
module InlineSemantics {
  import opened Common
  import opened InlineSyntax

  /** A binding in a scope; `Tdz` until its declaration has run. */
  datatype Slot = Tdz | Live(v: Value)
  type Frame = map<string, Slot>

  /** The scope chain, innermost first. Names bound by no frame are module globals. */
  datatype Env = Empty | Scope(vars: Frame, outer: Env)

  datatype Event = Event(tag: string, args: seq<Value>)
  datatype Mem = Mem(globals: map<string, Value>, trace: seq<Event>)

  datatype Outcome = Normal(v: Value) | Throw(v: Value)
  datatype Reaction = Reaction(out: Outcome, globals: map<string, Value>)

  /** What the outside does when an opaque operation runs: it may look at everything that
      happened so far, change module state, return or throw. */
  type World = (string, seq<Value>, Mem) -> Reaction

  datatype Res = Res(out: Outcome, env: Env, mem: Mem)
  datatype Args = Args(vals: seq<Value>, env: Env, mem: Mem) | ArgThrow(v: Value, env: Env, mem: Mem)

  datatype Completion = Done | Thrown(v: Value) | OutOfFuel
  datatype Run = Run(out: Completion, env: Env, mem: Mem)

  const REFERENCE_ERROR: Value := Num(-1)

  function Names(env: Env): set<string> {
    match env
    case Empty => {}
    case Scope(vars, outer) => vars.Keys + Names(outer)
  }

  function Lookup(env: Env, n: string): Option<Slot> {
    match env
    case Empty => None
    case Scope(vars, outer) => if n in vars then Some(vars[n]) else Lookup(outer, n)
  }

  function Store(env: Env, n: string, v: Value): Env {
    match env
    case Empty => Empty
    case Scope(vars, outer) =>
      if n in vars then Scope(vars[n := Live(v)], outer) else Scope(vars, Store(outer, n, v))
  }

  // ---------- Values ----------

  function Truthy(v: Value): bool {
    match v
    case Num(n) => n != 0
    case Bool(b) => b
    case Undefined => false
  }

  function ToNumber(v: Value): int
    requires !v.Undefined?
  {
    match v
    case Num(n) => n
    case Bool(b) => if b then 1 else 0
  }

  function LooselyEqual(a: Value, b: Value): bool {
    if a.Undefined? || b.Undefined? then a == b else ToNumber(a) == ToNumber(b)
  }

  /** Relational comparison: `undefined` becomes NaN, which is in no order with anything. */
  function Less(a: Value, b: Value): bool {
    !a.Undefined? && !b.Undefined? && ToNumber(a) < ToNumber(b)
  }

  function LessEq(a: Value, b: Value): bool {
    !a.Undefined? && !b.Undefined? && ToNumber(a) <= ToNumber(b)
  }

  predicate IsComparator(op: BinOp) {
    op != Or && op != And
  }

  function Compare(op: BinOp, a: Value, b: Value): bool
    requires IsComparator(op)
  {
    match op
    case StrictEq => a == b
    case StrictNe => a != b
    case LooseEq => LooselyEqual(a, b)
    case LooseNe => !LooselyEqual(a, b)
    case Lt => Less(a, b)
    case Gt => Less(b, a)
    case Le => LessEq(a, b)
    case Ge => LessEq(b, a)
  }

  // ---------- Expressions ----------

  function ReadId(n: string, env: Env, mem: Mem): Outcome {
    match Lookup(env, n)
    case Some(Live(v)) => Normal(v)
    case Some(Tdz) => Throw(REFERENCE_ERROR)
    case None => if n in mem.globals then Normal(mem.globals[n]) else Throw(REFERENCE_ERROR)
  }

  function WriteId(n: string, v: Value, env: Env, mem: Mem): Res {
    match Lookup(env, n)
    case Some(Live(_)) => Res(Normal(v), Store(env, n, v), mem)
    case Some(Tdz) => Res(Throw(REFERENCE_ERROR), env, mem)
    case None =>
      if n in mem.globals then Res(Normal(v), env, mem.(globals := mem.globals[n := v]))
      else Res(Throw(REFERENCE_ERROR), env, mem)
  }

  function Eval(w: World, e: Expr, env: Env, mem: Mem): Res
    decreases e, 1
  {
    match e
    case Lit(v) => Res(Normal(v), env, mem)
    case Id(n) => Res(ReadId(n, env, mem), env, mem)
    case Call(tag, args) =>
      (match EvalList(w, args, env, mem)
       case ArgThrow(v, env1, mem1) => Res(Throw(v), env1, mem1)
       case Args(vals, env1, mem1) =>
         var mem2 := mem1.(trace := mem1.trace + [Event(tag, vals)]);
         var reaction := w(tag, vals, mem2);
         Res(reaction.out, env1, mem2.(globals := reaction.globals)))
    case Assign(n, rhs) =>
      var r := Eval(w, rhs, env, mem);
      if r.out.Throw? then r else WriteId(n, r.out.v, r.env, r.mem)
    case Not(x) =>
      var r := Eval(w, x, env, mem);
      if r.out.Throw? then r else r.(out := Normal(Bool(!Truthy(r.out.v))))
    case Paren(x) => Eval(w, x, env, mem)
    case Bin(op, a, b) =>
      var ra := Eval(w, a, env, mem);
      if ra.out.Throw? then ra
      else if op == Or then (if Truthy(ra.out.v) then ra else Eval(w, b, ra.env, ra.mem))
      else if op == And then (if Truthy(ra.out.v) then Eval(w, b, ra.env, ra.mem) else ra)
      else
        var rb := Eval(w, b, ra.env, ra.mem);
        if rb.out.Throw? then rb else rb.(out := Normal(Bool(Compare(op, ra.out.v, rb.out.v))))
  }

  function EvalList(w: World, es: seq<Expr>, env: Env, mem: Mem): (r: Args)
    ensures r.Args? ==> |r.vals| == |es|
    decreases es, 0
  {
    if es == [] then Args([], env, mem)
    else
      var r := Eval(w, es[0], env, mem);
      if r.out.Throw? then ArgThrow(r.out.v, r.env, r.mem)
      else
        match EvalList(w, es[1..], r.env, r.mem)
        case ArgThrow(v, env1, mem1) => ArgThrow(v, env1, mem1)
        case Args(vals, env1, mem1) => Args([r.out.v] + vals, env1, mem1)
  }

  // ---------- Statements ----------

  function DeadZone(names: set<string>): Frame {
    map n | n in names :: Tdz
  }

  function Declare(env: Env, n: string, v: Value): Env {
    match env
    case Empty => Empty
    case Scope(vars, outer) => Scope(vars[n := Live(v)], outer)
  }

  function Pop(env: Env): Env {
    match env
    case Empty => Empty
    case Scope(_, outer) => outer
  }

  function Exec(w: World, fuel: nat, s: Stmt, env: Env, mem: Mem): Run
    decreases fuel, s, 1
  {
    match s
    case ExprStmt(e) =>
      var r := Eval(w, e, env, mem);
      Run(if r.out.Throw? then Thrown(r.out.v) else Done, r.env, r.mem)
    case Const(n, e) =>
      var r := Eval(w, e, env, mem);
      if r.out.Throw? then Run(Thrown(r.out.v), r.env, r.mem)
      else Run(Done, Declare(r.env, n, r.out.v), r.mem)
    case If(c, t, f) =>
      var r := Eval(w, c, env, mem);
      if r.out.Throw? then Run(Thrown(r.out.v), r.env, r.mem)
      else ExecBlock(w, fuel, if Truthy(r.out.v) then t else f, r.env, r.mem)
    case While(c, b) =>
      if fuel == 0 then Run(OutOfFuel, env, mem)
      else
        var r := Eval(w, c, env, mem);
        if r.out.Throw? then Run(Thrown(r.out.v), r.env, r.mem)
        else if !Truthy(r.out.v) then Run(Done, r.env, r.mem)
        else
          var once := ExecBlock(w, fuel, b, r.env, r.mem);
          if once.out != Done then once else Exec(w, fuel - 1, s, once.env, once.mem)
  }

  function ExecSeq(w: World, fuel: nat, ss: seq<Stmt>, env: Env, mem: Mem): Run
    decreases fuel, ss, 0
  {
    if ss == [] then Run(Done, env, mem)
    else
      var r := Exec(w, fuel, ss[0], env, mem);
      if r.out != Done then r else ExecSeq(w, fuel, ss[1..], r.env, r.mem)
  }

  function ExecBlock(w: World, fuel: nat, ss: seq<Stmt>, env: Env, mem: Mem): Run
    decreases fuel, ss, 1
  {
    var r := ExecSeq(w, fuel, ss, Scope(DeadZone(Decls(ss)), env), mem);
    r.(env := Pop(r.env))
  }

  // ---------- Calling a helper ----------

  /** Missing arguments are `undefined` (section 10.2.11 of ECMA-262). */
  function ParamFrame(params: seq<string>, vals: seq<Value>): Frame {
    if params == [] then map[]
    else
      var i := |params| - 1;
      ParamFrame(params[..i], vals)[params[i] := Live(if i < |vals| then vals[i] else Undefined)]
  }

  /** Guards in order; the first truthy one returns from the helper. */
  datatype GuardRun = Pass(env: Env, mem: Mem) | Return(env: Env, mem: Mem) | GuardThrow(v: Value, env: Env, mem: Mem)

  function RunGuards(w: World, guards: seq<Expr>, env: Env, mem: Mem): GuardRun {
    if guards == [] then Pass(env, mem)
    else
      var r := Eval(w, guards[0], env, mem);
      if r.out.Throw? then GuardThrow(r.out.v, r.env, r.mem)
      else if Truthy(r.out.v) then Return(r.env, r.mem)
      else RunGuards(w, guards[1..], r.env, r.mem)
  }

  function RunBody(w: World, fuel: nat, h: Helper, env: Env, mem: Mem): Run {
    match RunGuards(w, h.guards, env, mem)
    case GuardThrow(v, env1, mem1) => Run(Thrown(v), env1, mem1)
    case Return(env1, mem1) => Run(Done, env1, mem1)
    case Pass(env1, mem1) => ExecSeq(w, fuel, h.tail, env1, mem1)
  }

  /** The statement `helper(args);` run in the caller's scope `env`. The body sees its own
      scope and the module, never the caller's locals. */
  function CallHelper(w: World, fuel: nat, h: Helper, args: seq<Expr>, env: Env, mem: Mem): Run {
    match EvalList(w, args, env, mem)
    case ArgThrow(v, env1, mem1) => Run(Thrown(v), env1, mem1)
    case Args(vals, env1, mem1) =>
      var own := Scope(DeadZone(Decls(h.tail)), Scope(ParamFrame(h.params, vals), Empty));
      var r := RunBody(w, fuel, h, own, mem1);
      Run(r.out, env1, r.mem)
  }
}

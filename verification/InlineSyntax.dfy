/** The part of TypeScript that the function inliner reads and rewrites
    (scripts/inline-functions.ts): guard conditions, arguments and tail statements,
    with the name analysis the tool bases its decisions on. */
module InlineSyntax {

  datatype Value = Num(n: int) | Bool(b: bool) | Undefined

  datatype BinOp = Or | And | StrictEq | StrictNe | LooseEq | LooseNe | Lt | Gt | Le | Ge

  /** `Call` stands for every operation whose effect the program cannot see into: calls,
      getters, element access, `new`. `Paren` is kept because the tool copies source text. */
  datatype Expr =
    | Lit(v: Value)
    | Id(name: string)
    | Call(tag: string, args: seq<Expr>)
    | Assign(name: string, rhs: Expr)
    | Not(e: Expr)
    | Bin(op: BinOp, l: Expr, r: Expr)
    | Paren(e: Expr)

  datatype Stmt =
    | ExprStmt(e: Expr)
    | Const(name: string, init: Expr)
    | If(cond: Expr, thn: seq<Stmt>, els: seq<Stmt>)
    | While(cond: Expr, body: seq<Stmt>)

  /** A void helper: leading guards `if (g) return;`, then the tail. */
  datatype Helper = Helper(params: seq<string>, guards: seq<Expr>, tail: seq<Stmt>)

  // ---------- Names ----------

  function ExprNames(e: Expr): set<string>
    decreases e, 1
  {
    match e
    case Lit(_) => {}
    case Id(n) => {n}
    case Call(_, args) => ExprsNames(args)
    case Assign(n, rhs) => {n} + ExprNames(rhs)
    case Not(x) => ExprNames(x)
    case Bin(_, l, r) => ExprNames(l) + ExprNames(r)
    case Paren(x) => ExprNames(x)
  }

  function ExprsNames(es: seq<Expr>): set<string>
    decreases es, 0
  {
    if es == [] then {} else ExprNames(es[0]) + ExprsNames(es[1..])
  }

  /** The names a statement list declares in its own scope. */
  function Decls(ss: seq<Stmt>): set<string>
  {
    if ss == [] then {}
    else (if ss[0].Const? then {ss[0].name} else {}) + Decls(ss[1..])
  }

  /** Occurrences in a statement that no block nested in it binds. */
  function StmtOcc(s: Stmt): set<string>
    decreases s, 1
  {
    match s
    case ExprStmt(e) => ExprNames(e)
    case Const(n, e) => {n} + ExprNames(e)
    case If(c, t, f) => ExprNames(c) + BlockFree(t) + BlockFree(f)
    case While(c, b) => ExprNames(c) + BlockFree(b)
  }

  function SeqOcc(ss: seq<Stmt>): set<string>
    decreases ss, 0
  {
    if ss == [] then {} else StmtOcc(ss[0]) + SeqOcc(ss[1..])
  }

  /** Names free in `{ ss }`. */
  function BlockFree(ss: seq<Stmt>): set<string>
    decreases ss, 1
  {
    SeqOcc(ss) - Decls(ss)
  }

  /** Names declared by a block nested anywhere in the statement. */
  function StmtNested(s: Stmt): set<string>
    decreases s, 1
  {
    match s
    case ExprStmt(_) => {}
    case Const(_, _) => {}
    case If(_, t, f) => Decls(t) + SeqNested(t) + Decls(f) + SeqNested(f)
    case While(_, b) => Decls(b) + SeqNested(b)
  }

  function SeqNested(ss: seq<Stmt>): set<string>
    decreases ss, 0
  {
    if ss == [] then {} else StmtNested(ss[0]) + SeqNested(ss[1..])
  }

  /** Every identifier text in a statement list, bound or not. */
  function SeqAll(ss: seq<Stmt>): set<string>
    decreases ss
  {
    if ss == [] then {}
    else
      (match ss[0]
       case ExprStmt(e) => ExprNames(e)
       case Const(n, e) => {n} + ExprNames(e)
       case If(c, t, f) => ExprNames(c) + SeqAll(t) + SeqAll(f)
       case While(c, b) => ExprNames(c) + SeqAll(b)) + SeqAll(ss[1..])
  }

  // ---------- Writes ----------

  /** Nothing in `e` assigns to a name of `p`. */
  predicate Spares(e: Expr, p: set<string>)
    decreases e, 1
  {
    match e
    case Lit(_) => true
    case Id(_) => true
    case Call(_, args) => AllSpare(args, p)
    case Assign(n, rhs) => n !in p && Spares(rhs, p)
    case Not(x) => Spares(x, p)
    case Bin(_, l, r) => Spares(l, p) && Spares(r, p)
    case Paren(x) => Spares(x, p)
  }

  predicate AllSpare(es: seq<Expr>, p: set<string>)
    decreases es, 0
  {
    es == [] || (Spares(es[0], p) && AllSpare(es[1..], p))
  }

  /** No assignment in `s` resolves to the outer binding of a name of `p`
      (a nested block that declares the name has its own). */
  predicate StmtSpares(s: Stmt, p: set<string>)
    decreases s, 1
  {
    match s
    case ExprStmt(e) => Spares(e, p)
    case Const(_, e) => Spares(e, p)
    case If(c, t, f) => Spares(c, p) && SeqSpares(t, p - Decls(t)) && SeqSpares(f, p - Decls(f))
    case While(c, b) => Spares(c, p) && SeqSpares(b, p - Decls(b))
  }

  predicate SeqSpares(ss: seq<Stmt>, p: set<string>)
    decreases ss, 0
  {
    ss == [] || (StmtSpares(ss[0], p) && SeqSpares(ss[1..], p))
  }
}

/** Guard inversion: `negate`, `wrap` and `combineGuards` build text; the theorems say what
    the parser makes of that text and what it then evaluates to. */
module InlineNegate {
  import opened Common
  import opened InlineSyntax
  import opened InlineSemantics
  import opened InlineText
  import opened InlineSubst

  const PREC_OR := 1
  const PREC_AND := 2
  const PREC_ATOM := 3

  datatype Negated = Negated(text: seq<Tok>, prec: nat)

  function FlipComparator(op: BinOp): BinOp
    requires IsComparator(op)
  {
    match op
    case StrictEq => StrictNe
    case StrictNe => StrictEq
    case LooseEq => LooseNe
    case LooseNe => LooseEq
    case Lt => Ge
    case Gt => Le
    case Le => Gt
    case Ge => Lt
  }

  function LogicalPrec(e: Expr): nat {
    match e
    case Paren(x) => LogicalPrec(x)
    case Bin(op, _, _) => if op == Or then PREC_OR else if op == And then PREC_AND else PREC_ATOM
    case _ => PREC_ATOM
  }

  function Wrap(part: Negated, minPrec: nat): seq<Tok> {
    if part.prec < minPrec then [TOpen] + part.text + [TClose] else part.text
  }

  function Negate(e: Expr, th: Subst): Negated {
    match e
    case Paren(x) => Negate(x, th)
    case Not(x) => Negated(SubText(x, th), LogicalPrec(x))
    case Bin(And, a, b) =>
      Negated(Negate(a, th).text + [TOp(Or)] + Negate(b, th).text, PREC_OR)
    case Bin(Or, a, b) =>
      Negated(Wrap(Negate(a, th), PREC_AND) + [TOp(And)] + Wrap(Negate(b, th), PREC_AND), PREC_AND)
    case Bin(op, a, b) =>
      Negated(SubText(a, th) + [TOp(FlipComparator(op))] + SubText(b, th), PREC_ATOM)
    case _ => Negated([TNot, TOpen] + SubText(e, th) + [TClose], PREC_ATOM)
  }

  function JoinAnd(first: seq<Tok>, guards: seq<Expr>, th: Subst): seq<Tok>
    decreases guards
  {
    if guards == [] then first
    else JoinAnd(first + [TOp(And)] + Wrap(Negate(guards[0], th), PREC_AND), guards[1..], th)
  }

  function CombineGuards(guards: seq<Expr>, th: Subst): seq<Tok>
    requires guards != []
  {
    if |guards| == 1 then Negate(guards[0], th).text
    else JoinAnd(Wrap(Negate(guards[0], th), PREC_AND), guards[1..], th)
  }

  // ---------- The tree behind the text ----------

  /** Pasting ` op ` between two texts re-associates to the left when the right part is
      itself a bare `op` expression. */
  function Join(op: BinOp, l: Expr, r: Expr): Expr {
    if r.Bin? && r.op == op then Bin(op, Join(op, l, r.l), r.r) else Bin(op, l, r)
  }

  function Tight(e: Expr, prec: nat): Expr {
    if prec < PREC_AND then Paren(e) else e
  }

  function NegPrec(e: Expr): nat {
    match e
    case Paren(x) => NegPrec(x)
    case Not(x) => LogicalPrec(x)
    case Bin(op, _, _) => if op == And then PREC_OR else if op == Or then PREC_AND else PREC_ATOM
    case _ => PREC_ATOM
  }

  function NegTree(e: Expr): Expr {
    match e
    case Paren(x) => NegTree(x)
    case Not(x) => x
    case Bin(And, a, b) => Join(Or, NegTree(a), NegTree(b))
    case Bin(Or, a, b) => Join(And, Tight(NegTree(a), NegPrec(a)), Tight(NegTree(b), NegPrec(b)))
    case Bin(op, a, b) => Bin(FlipComparator(op), a, b)
    case _ => Not(Paren(e))
  }

  function CombineFrom(acc: Expr, guards: seq<Expr>): Expr
    decreases guards
  {
    if guards == [] then acc
    else CombineFrom(Join(And, acc, Tight(NegTree(guards[0]), NegPrec(guards[0]))), guards[1..])
  }

  function CombineTree(guards: seq<Expr>): Expr
    requires guards != []
  {
    if |guards| == 1 then NegTree(guards[0])
    else CombineFrom(Tight(NegTree(guards[0]), NegPrec(guards[0])), guards[1..])
  }

  lemma {:induction false} JoinText(op: BinOp, l: Expr, r: Expr, th: Subst)
    ensures Text(SubstE(Join(op, l, r), th)) == Text(SubstE(l, th)) + [TOp(op)] + Text(SubstE(r, th))
    decreases r
  {
    if r.Bin? && r.op == op {
      JoinText(op, l, r.l, th);
      var a, b, c := Text(SubstE(l, th)), Text(SubstE(r.l, th)), Text(SubstE(r.r, th));
      assert (a + [TOp(op)] + b) + [TOp(op)] + c == a + [TOp(op)] + (b + [TOp(op)] + c);
    }
  }

  lemma {:induction false} JoinParsed(op: BinOp, l: Expr, r: Expr)
    requires op == Or || op == And
    requires Parsed(l) && Parsed(r) && Level(l) >= OpLevel(op) && Level(r) >= OpLevel(op)
    ensures Parsed(Join(op, l, r)) && Level(Join(op, l, r)) == OpLevel(op)
    decreases r
  {
    if r.Bin? && r.op == op { JoinParsed(op, l, r.l); }
  }

  /** `negate` prints the inverted tree, and its `prec` never overstates how tightly that
      text binds. */
  lemma {:induction false} NegateText(e: Expr, th: Subst)
    requires Parsed(e)
    ensures Negate(e, th) == Negated(Text(SubstE(NegTree(e), th)), NegPrec(e))
    ensures Parsed(NegTree(e)) && Level(NegTree(e)) >= NegPrec(e) >= 1
  {
    match e
    case Paren(x) => NegateText(x, th);
    case Not(x) =>
      SubTextIsTextOfSubst(x, th);
      LogicalPrecRange(x);
    case Bin(op, a, b) =>
      if op == And || op == Or {
        NegateText(a, th);
        NegateText(b, th);
        NegateLogicalText(op, a, b, th);
      } else {
        NegateComparisonText(op, a, b, th);
      }
    case _ => NegateOtherText(e, th);
  }

  lemma {:induction false} NegateLogicalText(op: BinOp, a: Expr, b: Expr, th: Subst)
    requires op == And || op == Or
    requires Parsed(NegTree(a)) && Level(NegTree(a)) >= NegPrec(a) >= 1
    requires Parsed(NegTree(b)) && Level(NegTree(b)) >= NegPrec(b) >= 1
    requires Negate(a, th) == Negated(Text(SubstE(NegTree(a), th)), NegPrec(a))
    requires Negate(b, th) == Negated(Text(SubstE(NegTree(b), th)), NegPrec(b))
    ensures var e := Bin(op, a, b);
            Negate(e, th) == Negated(Text(SubstE(NegTree(e), th)), NegPrec(e)) &&
            Parsed(NegTree(e)) && Level(NegTree(e)) >= NegPrec(e)
  {
    var na, nb := NegTree(a), NegTree(b);
    if op == And {
      JoinText(Or, na, nb, th);
      JoinParsed(Or, na, nb);
    } else {
      JoinText(And, Tight(na, NegPrec(a)), Tight(nb, NegPrec(b)), th);
      JoinParsed(And, Tight(na, NegPrec(a)), Tight(nb, NegPrec(b)));
      WrapText(a, th);
      WrapText(b, th);
    }
  }

  lemma {:induction false} WrapText(e: Expr, th: Subst)
    requires Negate(e, th) == Negated(Text(SubstE(NegTree(e), th)), NegPrec(e))
    ensures Wrap(Negate(e, th), PREC_AND) == Text(SubstE(Tight(NegTree(e), NegPrec(e)), th))
  {
  }

  lemma {:induction false} NegateComparisonText(op: BinOp, a: Expr, b: Expr, th: Subst)
    requires IsComparator(op) && Parsed(Bin(op, a, b))
    ensures var e := Bin(op, a, b);
            Negate(e, th) == Negated(Text(SubstE(NegTree(e), th)), NegPrec(e)) &&
            Parsed(NegTree(e)) && Level(NegTree(e)) >= NegPrec(e)
  {
    SubTextIsTextOfSubst(a, th);
    SubTextIsTextOfSubst(b, th);
  }

  lemma {:induction false} NegateOtherText(e: Expr, th: Subst)
    requires Parsed(e) && !e.Bin? && !e.Not? && !e.Paren?
    ensures Negate(e, th) == Negated(Text(SubstE(NegTree(e), th)), NegPrec(e))
    ensures Parsed(NegTree(e)) && Level(NegTree(e)) >= NegPrec(e)
  {
    SubTextIsTextOfSubst(e, th);
    assert [TNot] + ([TOpen] + SubText(e, th) + [TClose]) == [TNot, TOpen] + SubText(e, th) + [TClose];
  }

  lemma {:induction false} LogicalPrecRange(e: Expr)
    ensures 1 <= LogicalPrec(e) <= PREC_ATOM
  {
    if e.Paren? { LogicalPrecRange(e.e); }
  }

  lemma {:induction false} JoinAndText(acc: Expr, guards: seq<Expr>, th: Subst)
    requires Parsed(acc) && Level(acc) >= OpLevel(And)
    requires forall g <- guards :: Parsed(g)
    ensures JoinAnd(Text(SubstE(acc, th)), guards, th) == Text(SubstE(CombineFrom(acc, guards), th))
    ensures Parsed(CombineFrom(acc, guards))
    decreases guards
  {
    if guards != [] {
      var g := guards[0];
      NegateText(g, th);
      WrapText(g, th);
      var part := Tight(NegTree(g), NegPrec(g));
      JoinText(And, acc, part, th);
      JoinParsed(And, acc, part);
      JoinAndText(Join(And, acc, part), guards[1..], th);
    }
  }

  /** The condition text, read back by the parser, is exactly the combined inverted tree
      with the substitution applied. */
  lemma {:induction false} CombineGuardsParses(guards: seq<Expr>, th: Subst)
    requires guards != [] && forall g <- guards :: Parsed(g)
    ensures ParseAll(CombineGuards(guards, th)) == Some(SubstE(CombineTree(guards), th))
  {
    var g := guards[0];
    NegateText(g, th);
    if |guards| > 1 {
      WrapText(g, th);
      JoinAndText(Tight(NegTree(g), NegPrec(g)), guards[1..], th);
    }
    SubstKeepsShape(CombineTree(guards), th);
    ParseText(SubstE(CombineTree(guards), th));
  }

  // ---------- What the inverted condition evaluates to ----------

  /** Operands the flipped comparator really complements. */
  predicate FlipSafe(op: BinOp, a: Value, b: Value) {
    op in {Lt, Gt, Le, Ge} ==> !a.Undefined? && !b.Undefined?
  }

  /** The comparator table is right on exactly the operands that are in order: flipping an
      equality always complements it, flipping `<`, `>`, `<=`, `>=` does so if and only if
      neither side is `undefined`. */
  lemma FlipComplementsIffOrdered(op: BinOp, a: Value, b: Value)
    requires IsComparator(op)
    ensures Compare(FlipComparator(op), a, b) == !Compare(op, a, b) <==> FlipSafe(op, a, b)
  {
  }

  /** Every comparison that inverting `e` flips, and that this evaluation reaches, has
      ordered operands. */
  predicate FlipsOrdered(w: World, e: Expr, env: Env, mem: Mem) {
    match e
    case Paren(x) => FlipsOrdered(w, x, env, mem)
    case Bin(op, a, b) =>
      var ra := Eval(w, a, env, mem);
      if op == And then
        FlipsOrdered(w, a, env, mem) &&
        (ra.out.Normal? && Truthy(ra.out.v) ==> FlipsOrdered(w, b, ra.env, ra.mem))
      else if op == Or then
        FlipsOrdered(w, a, env, mem) &&
        (ra.out.Normal? && !Truthy(ra.out.v) ==> FlipsOrdered(w, b, ra.env, ra.mem))
      else
        ra.out.Normal? ==>
          var rb := Eval(w, b, ra.env, ra.mem);
          rb.out.Normal? ==> FlipSafe(op, ra.out.v, rb.out.v)
    case _ => true
  }

  /** `n` did what `r` did, and ended with the opposite truth value or the same exception. */
  predicate Complements(r: Res, n: Res) {
    r.env == n.env && r.mem == n.mem &&
    (match r.out
     case Throw(_) => n.out == r.out
     case Normal(v) => n.out.Normal? && Truthy(n.out.v) == !Truthy(v))
  }

  lemma {:induction false} JoinAssociates(w: World, op: BinOp, l: Expr, r: Expr, env: Env, mem: Mem)
    requires op == Or || op == And
    ensures Eval(w, Join(op, l, r), env, mem) == Eval(w, Bin(op, l, r), env, mem)
    decreases r
  {
    if r.Bin? && r.op == op { JoinAssociates(w, op, l, r.l, env, mem); }
  }

  /** De Morgan with comparator flips keeps every effect, in order, and inverts the truth
      value. */
  lemma {:induction false} NegTreeComplements(w: World, e: Expr, env: Env, mem: Mem)
    requires FlipsOrdered(w, e, env, mem)
    ensures Complements(Eval(w, e, env, mem), Eval(w, NegTree(e), env, mem))
  {
    match e
    case Paren(x) => NegTreeComplements(w, x, env, mem);
    case Bin(op, a, b) =>
      var ra := Eval(w, a, env, mem);
      if op == And || op == Or {
        NegTreeComplements(w, a, env, mem);
        var na, nb := NegTree(a), NegTree(b);
        if op == And {
          JoinAssociates(w, Or, na, nb, env, mem);
        } else {
          JoinAssociates(w, And, Tight(na, NegPrec(a)), Tight(nb, NegPrec(b)), env, mem);
        }
        if ra.out.Normal? && Truthy(ra.out.v) == (op == And) {
          NegTreeComplements(w, b, ra.env, ra.mem);
        }
      } else if ra.out.Normal? {
        var rb := Eval(w, b, ra.env, ra.mem);
        if rb.out.Normal? { FlipComplementsIffOrdered(op, ra.out.v, rb.out.v); }
      }
    case _ =>
  }

  predicate GuardsOrdered(w: World, guards: seq<Expr>, env: Env, mem: Mem) {
    guards == [] ||
    (FlipsOrdered(w, guards[0], env, mem) &&
     var r := Eval(w, guards[0], env, mem);
     (r.out.Normal? && !Truthy(r.out.v) ==> GuardsOrdered(w, guards[1..], r.env, r.mem)))
  }

  /** Inverting `e` flips no `<`, `>`, `<=` or `>=`. */
  predicate FlipsNone(e: Expr) {
    match e
    case Paren(x) => FlipsNone(x)
    case Bin(op, a, b) => if op == And || op == Or then FlipsNone(a) && FlipsNone(b) else op !in {Lt, Gt, Le, Ge}
    case _ => true
  }

  lemma {:induction false} FlipsNoneOrdered(w: World, e: Expr, env: Env, mem: Mem)
    requires FlipsNone(e)
    ensures FlipsOrdered(w, e, env, mem)
  {
    match e
    case Paren(x) => FlipsNoneOrdered(w, x, env, mem);
    case Bin(op, a, b) =>
      if op == And || op == Or {
        var ra := Eval(w, a, env, mem);
        FlipsNoneOrdered(w, a, env, mem);
        FlipsNoneOrdered(w, b, ra.env, ra.mem);
      }
    case _ =>
  }

  /** Guards in which nothing like that is flipped are in order wherever they run: a test that can
      be made on the text, before any call. */
  lemma {:induction false} FlipsNoneGuardsOrdered(w: World, guards: seq<Expr>, env: Env, mem: Mem)
    requires forall g <- guards :: FlipsNone(g)
    ensures GuardsOrdered(w, guards, env, mem)
    decreases guards
  {
    if guards != [] {
      FlipsNoneOrdered(w, guards[0], env, mem);
      var r := Eval(w, guards[0], env, mem);
      FlipsNoneGuardsOrdered(w, guards[1..], r.env, r.mem);
    }
  }

  /** `n`, the run of the combined condition, matches the guard sequence `g`: true when all
      guards pass, false at the first early return, the same exception otherwise. */
  predicate RunsOnlyPast(g: GuardRun, n: Res) {
    n.env == g.env && n.mem == g.mem &&
    match g
    case Pass(_, _) => n.out.Normal? && Truthy(n.out.v)
    case Return(_, _) => n.out.Normal? && !Truthy(n.out.v)
    case GuardThrow(v, _, _) => n.out == Throw(v)
  }

  lemma {:induction false} CombineFromRuns(w: World, acc: Expr, guards: seq<Expr>, env: Env, mem: Mem)
    requires var r := Eval(w, acc, env, mem);
             r.out.Normal? && Truthy(r.out.v) ==> GuardsOrdered(w, guards, r.env, r.mem)
    ensures var r := Eval(w, acc, env, mem);
            var n := Eval(w, CombineFrom(acc, guards), env, mem);
            if r.out.Normal? && Truthy(r.out.v) then RunsOnlyPast(RunGuards(w, guards, r.env, r.mem), n)
            else n == r
    decreases guards
  {
    if guards != [] {
      var g := guards[0];
      var part := Tight(NegTree(g), NegPrec(g));
      var r := Eval(w, acc, env, mem);
      JoinAssociates(w, And, acc, part, env, mem);
      if r.out.Normal? && Truthy(r.out.v) { NegTreeComplements(w, g, r.env, r.mem); }
      CombineFromRuns(w, Join(And, acc, part), guards[1..], env, mem);
    }
  }

  /** Running the combined condition is running the guards: same effects in the same order,
      true exactly when no guard returned early. */
  lemma {:induction false} CombineTreeRunsGuards(w: World, guards: seq<Expr>, env: Env, mem: Mem)
    requires guards != [] && GuardsOrdered(w, guards, env, mem)
    ensures RunsOnlyPast(RunGuards(w, guards, env, mem), Eval(w, CombineTree(guards), env, mem))
  {
    var g := guards[0];
    NegTreeComplements(w, g, env, mem);
    CombineFromRuns(w, Tight(NegTree(g), NegPrec(g)), guards[1..], env, mem);
  }
}

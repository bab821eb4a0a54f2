/** Source text as tokens, and the parser for it. The tool never builds expression trees:
    it pastes text, and what the text means is what the parser makes of it. */
module InlineText {
  import opened Common
  import opened InlineSyntax
  import opened InlineSemantics

  datatype Tok = TAtom(e: Expr) | TNot | TOp(op: BinOp) | TOpen | TClose | TAssign(name: string)

  /** Binding strength: `||` < `&&` < equality < relational (section 13 of ECMA-262). */
  function OpLevel(op: BinOp): nat {
    match op
    case Or => 1
    case And => 2
    case StrictEq => 3
    case StrictNe => 3
    case LooseEq => 3
    case LooseNe => 3
    case Lt => 4
    case Gt => 4
    case Le => 4
    case Ge => 4
  }

  const UNARY := 5

  function Level(e: Expr): nat {
    match e
    case Assign(_, _) => 0
    case Bin(op, _, _) => OpLevel(op)
    case Not(_) => UNARY
    case _ => UNARY + 1
  }

  /** The trees a parser produces: every operand binds tightly enough, operators of one
      level associate to the left. */
  predicate Parsed(e: Expr) {
    match e
    case Lit(_) => true
    case Id(_) => true
    case Call(_, _) => true
    case Assign(_, rhs) => Parsed(rhs)
    case Not(x) => Parsed(x) && Level(x) >= UNARY
    case Bin(op, l, r) => Parsed(l) && Parsed(r) && Level(l) >= OpLevel(op) && Level(r) > OpLevel(op)
    case Paren(x) => Parsed(x)
  }

  function Text(e: Expr): (ts: seq<Tok>)
    ensures |ts| > 0
  {
    match e
    case Lit(_) => [TAtom(e)]
    case Id(_) => [TAtom(e)]
    case Call(_, _) => [TAtom(e)]
    case Assign(n, rhs) => [TAssign(n)] + Text(rhs)
    case Not(x) => [TNot] + Text(x)
    case Bin(op, l, r) => Text(l) + [TOp(op)] + Text(r)
    case Paren(x) => [TOpen] + Text(x) + [TClose]
  }

  // ---------- Parser ----------

  datatype Parse = Fail | Ok(e: Expr, rest: seq<Tok>)

  /** Parse an expression of level at least `k` off the front of `ts`. */
  function ParseAt(k: nat, ts: seq<Tok>): (p: Parse)
    ensures p.Ok? ==> |p.rest| < |ts|
    decreases |ts|, if k <= UNARY then UNARY - k + 2 else 0
  {
    if ts == [] then Fail
    else if k == 0 then
      if ts[0].TAssign? then
        match ParseAt(0, ts[1..])
        case Fail => Fail
        case Ok(rhs, rest) => Ok(Assign(ts[0].name, rhs), rest)
      else ParseAt(1, ts)
    else if k < UNARY then
      match ParseAt(k + 1, ts)
      case Fail => Fail
      case Ok(l, rest) => ParseMore(k, l, rest)
    else
      match ts[0]
      case TAtom(e) => Ok(e, ts[1..])
      case TNot =>
        (match ParseAt(UNARY, ts[1..])
         case Fail => Fail
         case Ok(x, rest) => Ok(Not(x), rest))
      case TOpen =>
        (match ParseAt(0, ts[1..])
         case Fail => Fail
         case Ok(x, rest) => if rest != [] && rest[0] == TClose then Ok(Paren(x), rest[1..]) else Fail)
      case _ => Fail
  }

  /** Extend `l` by the operators of level `k` that follow it. */
  function ParseMore(k: nat, l: Expr, ts: seq<Tok>): (p: Parse)
    requires 1 <= k < UNARY
    ensures p.Ok? ==> |p.rest| <= |ts|
    decreases |ts|, 0
  {
    if ts != [] && ts[0].TOp? && OpLevel(ts[0].op) == k then
      match ParseAt(k + 1, ts[1..])
      case Fail => Fail
      case Ok(r, rest) => ParseMore(k, Bin(ts[0].op, l, r), rest)
    else Ok(l, ts)
  }

  function ParseAll(ts: seq<Tok>): Option<Expr> {
    match ParseAt(0, ts)
    case Fail => None
    case Ok(e, rest) => if rest == [] then Some(e) else None
  }

  /** `ts` does not go on with an operator that binds tighter than level `k`. */
  predicate Stops(k: nat, ts: seq<Tok>) {
    ts == [] || (ts[0].TOp? ==> OpLevel(ts[0].op) <= k)
  }

  lemma {:induction false} ReadNot(ts: seq<Tok>, x: Expr, rest: seq<Tok>)
    requires ParseAt(UNARY, ts) == Ok(x, rest)
    ensures ParseAt(UNARY, [TNot] + ts) == Ok(Not(x), rest)
  {
    assert ([TNot] + ts)[1..] == ts;
  }

  lemma {:induction false} ReadParen(ts: seq<Tok>, x: Expr, rest: seq<Tok>)
    requires ParseAt(0, ts) == Ok(x, [TClose] + rest)
    ensures ParseAt(UNARY, [TOpen] + ts) == Ok(Paren(x), rest)
  {
    assert ([TOpen] + ts)[1..] == ts && ([TClose] + rest)[1..] == rest;
  }

  lemma {:induction false} ReadAtom(e: Expr, rest: seq<Tok>)
    ensures ParseAt(UNARY, [TAtom(e)] + rest) == Ok(e, rest)
  {
    assert ([TAtom(e)] + rest)[1..] == rest;
  }

  lemma {:induction false} ReadAssign(n: string, ts: seq<Tok>, x: Expr, rest: seq<Tok>)
    requires ParseAt(0, ts) == Ok(x, rest)
    ensures ParseAt(0, [TAssign(n)] + ts) == Ok(Assign(n, x), rest)
  {
    assert ([TAssign(n)] + ts)[1..] == ts;
  }

  lemma ReadOperand(k: nat, ts: seq<Tok>, l: Expr, rest: seq<Tok>)
    requires 1 <= k < UNARY && ParseAt(k + 1, ts) == Ok(l, rest) && ts != []
    ensures ParseAt(k, ts) == ParseMore(k, l, rest)
  {
  }

  lemma {:induction false} ReadOperator(op: BinOp, l: Expr, ts: seq<Tok>, r: Expr, rest: seq<Tok>)
    requires ParseAt(OpLevel(op) + 1, ts) == Ok(r, rest)
    ensures ParseMore(OpLevel(op), l, [TOp(op)] + ts) == ParseMore(OpLevel(op), Bin(op, l, r), rest)
  {
    assert ([TOp(op)] + ts)[1..] == ts;
  }

  lemma {:induction false} BinText(e: Expr, rest: seq<Tok>)
    requires e.Bin?
    ensures Text(e) + rest == Text(e.l) + ([TOp(e.op)] + (Text(e.r) + rest))
  {
  }

  lemma {:induction false} NotText(e: Expr, rest: seq<Tok>)
    requires e.Not?
    ensures Text(e) + rest == [TNot] + (Text(e.e) + rest)
  {
  }

  lemma {:induction false} ParenText(e: Expr, rest: seq<Tok>)
    requires e.Paren?
    ensures Text(e) + rest == [TOpen] + (Text(e.e) + ([TClose] + rest))
  {
  }

  lemma {:induction false} AssignText(e: Expr, rest: seq<Tok>)
    requires e.Assign?
    ensures Text(e) + rest == [TAssign(e.name)] + (Text(e.rhs) + rest)
  {
  }

  lemma {:induction false} ParseUnary(e: Expr, rest: seq<Tok>)
    requires Parsed(e) && Level(e) >= UNARY
    ensures ParseAt(UNARY, Text(e) + rest) == Ok(e, rest)
    decreases e, 0
  {
    match e
    case Not(x) =>
      ParseUnary(x, rest);
      ReadNot(Text(x) + rest, x, rest);
      NotText(e, rest);
    case Paren(x) =>
      ParsePrefix(0, x, [TClose] + rest);
      ReadParen(Text(x) + ([TClose] + rest), x, rest);
      ParenText(e, rest);
    case Assign(_, _) =>
    case Bin(_, _, _) =>
    case _ => ReadAtom(e, rest);
  }

  /** Reading the text of `e` at level `k` leaves the parser where it would be had it just
      built `e` and were looking for more operators of that level. */
  lemma {:induction false} ParsePrefix(k: nat, e: Expr, rest: seq<Tok>)
    requires Parsed(e) && k < UNARY && Level(e) >= k
    requires Stops(k, rest)
    ensures ParseAt(k, Text(e) + rest) == if k == 0 then Ok(e, rest) else ParseMore(k, e, rest)
    decreases e, 2 * (UNARY - k)
  {
    if k == 0 && e.Assign? {
      ParsePrefix(0, e.rhs, rest);
      ReadAssign(e.name, Text(e.rhs) + rest, e.rhs, rest);
      AssignText(e, rest);
    } else if k == 0 {
      FirstToken(e);
      ParsePrefix(1, e, rest);
    } else if e.Bin? && OpLevel(e.op) == k {
      var after := Text(e.r) + rest;
      ParsePrefix(k, e.l, [TOp(e.op)] + after);
      ParseTight(k + 1, e.r, rest);
      ReadOperator(e.op, e.l, after, e.r, rest);
      BinText(e, rest);
    } else {
      ParseTight(k + 1, e, rest);
      ReadOperand(k, Text(e) + rest, e, rest);
    }
  }

  lemma {:induction false} ParseTight(k: nat, e: Expr, rest: seq<Tok>)
    requires Parsed(e) && 1 < k <= UNARY && Level(e) >= k && Stops(k - 1, rest)
    ensures ParseAt(k, Text(e) + rest) == Ok(e, rest)
    decreases e, 2 * (UNARY - k) + 1
  {
    if k == UNARY { ParseUnary(e, rest); } else { ParsePrefix(k, e, rest); }
  }

  lemma {:induction false} FirstToken(e: Expr)
    requires !e.Assign? && Parsed(e)
    ensures !Text(e)[0].TAssign?
  {
    if e.Bin? { FirstToken(e.l); }
  }

  /** The parser reads back every tree it could have produced. */
  lemma {:induction false} ParseText(e: Expr)
    requires Parsed(e)
    ensures ParseAll(Text(e)) == Some(e)
  {
    ParsePrefix(0, e, []);
    assert Text(e) + [] == Text(e);
  }
}

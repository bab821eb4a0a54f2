/** Replacing a helper's parameters and renamed locals, in trees and in their text. */
module InlineSubst {
  import opened Common
  import opened InlineSyntax
  import opened InlineText

  /** What an identifier of the helper is replaced by: a hoisted temporary, a tail local
      (possibly renamed), or the text `undefined`. */
  datatype Target = Temp(name: string) | Local(name: string) | Undef

  type Subst = map<string, Target>

  function SubstName(n: string, th: Subst): string {
    if n in th && !th[n].Undef? then th[n].name else n
  }

  function SubstE(e: Expr, th: Subst): Expr
    decreases e, 1
  {
    match e
    case Lit(_) => e
    case Id(n) => if n in th && th[n].Undef? then Lit(Undefined) else Id(SubstName(n, th))
    case Call(tag, args) => Call(tag, SubstEs(args, th))
    case Assign(n, rhs) => Assign(SubstName(n, th), SubstE(rhs, th))
    case Not(x) => Not(SubstE(x, th))
    case Bin(op, l, r) => Bin(op, SubstE(l, th), SubstE(r, th))
    case Paren(x) => Paren(SubstE(x, th))
  }

  function SubstEs(es: seq<Expr>, th: Subst): seq<Expr>
    decreases es, 0
  {
    if es == [] then [] else [SubstE(es[0], th)] + SubstEs(es[1..], th)
  }

  /** References are found per binding, so a block that redeclares a name keeps its own. */
  function SubstS(s: Stmt, th: Subst): Stmt
    decreases s, 1
  {
    match s
    case ExprStmt(e) => ExprStmt(SubstE(e, th))
    case Const(n, e) => Const(SubstName(n, th), SubstE(e, th))
    case If(c, t, f) => If(SubstE(c, th), SubstSeq(t, th - Decls(t)), SubstSeq(f, th - Decls(f)))
    case While(c, b) => While(SubstE(c, th), SubstSeq(b, th - Decls(b)))
  }

  function SubstSeq(ss: seq<Stmt>, th: Subst): seq<Stmt>
    decreases ss, 0
  {
    if ss == [] then [] else [SubstS(ss[0], th)] + SubstSeq(ss[1..], th)
  }

  function SubstTok(t: Tok, th: Subst): Tok {
    match t
    case TAtom(e) => TAtom(SubstE(e, th))
    case TAssign(n) => TAssign(SubstName(n, th))
    case _ => t
  }

  function SubToks(ts: seq<Tok>, th: Subst): seq<Tok> {
    if ts == [] then [] else [SubstTok(ts[0], th)] + SubToks(ts[1..], th)
  }

  /** `subText`: the source text of `e` with each reference overwritten in place. */
  function SubText(e: Expr, th: Subst): seq<Tok> {
    SubToks(Text(e), th)
  }

  lemma {:induction false} SubToksAppend(a: seq<Tok>, b: seq<Tok>, th: Subst)
    ensures SubToks(a + b, th) == SubToks(a, th) + SubToks(b, th)
    decreases a
  {
    if a == [] {
      assert a + b == b;
    } else {
      CatTail(a, b);
      SubToksAppend(a[1..], b, th);
    }
  }

  lemma {:induction false} SubToksThree(a: seq<Tok>, b: seq<Tok>, c: seq<Tok>, th: Subst)
    ensures SubToks(a + b + c, th) == SubToks(a, th) + SubToks(b, th) + SubToks(c, th)
  {
    SubToksAppend(a + b, c, th);
    SubToksAppend(a, b, th);
  }

  ghost predicate TextSubstitutes(e: Expr, th: Subst) {
    SubText(e, th) == Text(SubstE(e, th))
  }

  lemma SubTextNested(e: Expr, th: Subst)
    requires match e
             case Assign(_, rhs) => TextSubstitutes(rhs, th)
             case Not(x) => TextSubstitutes(x, th)
             case Paren(x) => TextSubstitutes(x, th)
             case _ => false
    ensures TextSubstitutes(e, th)
  {
    match e
    case Assign(n, rhs) => SubToksAppend([TAssign(n)], Text(rhs), th);
    case Not(x) => SubToksAppend([TNot], Text(x), th);
    case Paren(x) => SubToksThree([TOpen], Text(x), [TClose], th);
  }

  lemma SubTextBin(e: Expr, th: Subst)
    requires e.Bin? && TextSubstitutes(e.l, th) && TextSubstitutes(e.r, th)
    ensures TextSubstitutes(e, th)
  {
    SubToksThree(Text(e.l), [TOp(e.op)], Text(e.r), th);
  }

  /** Overwriting the text is substituting in the tree. */
  lemma {:induction false} SubTextIsTextOfSubst(e: Expr, th: Subst)
    ensures SubText(e, th) == Text(SubstE(e, th))
  {
    match e
    case Assign(_, rhs) =>
      SubTextIsTextOfSubst(rhs, th);
      SubTextNested(e, th);
    case Not(x) =>
      SubTextIsTextOfSubst(x, th);
      SubTextNested(e, th);
    case Paren(x) =>
      SubTextIsTextOfSubst(x, th);
      SubTextNested(e, th);
    case Bin(_, l, r) =>
      SubTextIsTextOfSubst(l, th);
      SubTextIsTextOfSubst(r, th);
      SubTextBin(e, th);
    case _ =>
      assert SubToks([TAtom(e)], th) == [SubstTok(TAtom(e), th)] + SubToks([], th);
  }

  lemma {:induction false} SubstKeepsShape(e: Expr, th: Subst)
    ensures Level(SubstE(e, th)) == Level(e)
    ensures Parsed(e) ==> Parsed(SubstE(e, th))
  {
    match e
    case Assign(n, rhs) => SubstKeepsShape(rhs, th);
    case Not(x) => SubstKeepsShape(x, th);
    case Paren(x) => SubstKeepsShape(x, th);
    case Bin(op, l, r) =>
      SubstKeepsShape(l, th);
      SubstKeepsShape(r, th);
    case _ =>
  }

  lemma {:induction false} SubstDecls(ss: seq<Stmt>, th: Subst)
    requires th.Keys !! Decls(ss)
    ensures Decls(SubstSeq(ss, th)) == Decls(ss)
    decreases ss
  {
    if ss != [] { SubstDecls(ss[1..], th); }
  }
}

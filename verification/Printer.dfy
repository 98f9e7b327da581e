/** Printing of operator expressions, with the parentheses that their precedence needs
    (`expr_with_prec` in `formatter.rs`). */
module Printer {
  import opened Grammar

  datatype Position = Top | Left | Right | UnaryOperand

  const PREC_LOWEST: nat := 0
  const PREC_UNARY: nat := 7
  const PREC_FIELD_ACCESS: nat := 8
  const PREC_PRIMARY: nat := 9

  function PrecedenceBinary(op: BinaryOp): nat {
    match op
    case Or => 1
    case And => 2
    case Equal | NotEqual => 3
    case Less | LessEqual | Greater | GreaterEqual => 4
    case Add | Subtract => 5
    case Multiply | Divide | Remainder => 6
  }

  function Precedence(e: Expr): nat {
    match e
    case Lit(_) => PREC_PRIMARY
    case ScopedName(_) => PREC_PRIMARY
    case Tuple(_) => PREC_PRIMARY
    case Grouping(inner) => Precedence(inner)
    case Unary(_, _) => PREC_UNARY
    case Binary(op, _, _) => PrecedenceBinary(op)
    case FieldAccess(_, _) => PREC_FIELD_ACCESS
    case Call(_, _) => PREC_FIELD_ACCESS
  }

  predicate NeedsParentheses(prec: nat, parentPrec: nat, position: Position) {
    !position.Top? && (prec < parentPrec || (prec == parentPrec && position.Right?))
  }

  /** The tokens of an expression below a parent, followed by k. */
  function ExprWithPrec(e: Expr, parentPrec: nat, position: Position, k: Tokens): Tokens
    decreases e, 1
  {
    if e.Grouping? then Tok(LParen, ExprWithPrec(e.inner, PREC_LOWEST, Top, Tok(RParen, k)))
    else if NeedsParentheses(Precedence(e), parentPrec, position) then Tok(LParen, Bare(e, Tok(RParen, k)))
    else Bare(e, k)
  }

  function Bare(e: Expr, k: Tokens): Tokens
    requires !e.Grouping?
    decreases e, 0
  {
    match e
    case Lit(l) => LiteralOnto(l, k)
    case ScopedName(name) => Tok(Name(name), k)
    case Tuple(items) => Tok(LParen, ItemsToDoc(items, Tok(RParen, k)))
    case Unary(op, operand) => Tok(UnaryToken(op), ExprWithPrec(operand, PREC_UNARY, UnaryOperand, k))
    case Binary(op, l, r) =>
      ExprWithPrec(l, PrecedenceBinary(op), Left, Tok(Op(op), ExprWithPrec(r, PrecedenceBinary(op), Right, k)))
    case FieldAccess(target, field) => ExprWithPrec(target, PREC_PRIMARY, Top, Tok(Dot, Tok(Name(field), k)))
    case Call(callee, args) =>
      ExprWithPrec(callee, PREC_FIELD_ACCESS, Left, Tok(LParen, ItemsToDoc(args, Tok(RParen, k))))
  }

  /** Expressions with commas between them. */
  function ItemsToDoc(items: seq<Expr>, k: Tokens): Tokens
    decreases items, 2
  {
    if items == [] then k
    else if |items| == 1 then ExprWithPrec(items[0], PREC_LOWEST, Top, k)
    else ExprWithPrec(items[0], PREC_LOWEST, Top, Tok(Comma, ItemsToDoc(items[1..], k)))
  }

  function Print(e: Expr): Tokens {
    ExprWithPrec(e, PREC_LOWEST, Top, End)
  }

  // ---- Trees up to grouping.

  /** Forget the groupings. */
  function Strip(e: Expr): Expr
    decreases e
  {
    match e
    case Grouping(inner) => Strip(inner)
    case Tuple(items) => Tuple(seq(|items|, i requires 0 <= i < |items| => Strip(items[i])))
    case Call(callee, args) => Call(Strip(callee), seq(|args|, i requires 0 <= i < |args| => Strip(args[i])))
    case FieldAccess(target, field) => FieldAccess(Strip(target), field)
    case Unary(op, operand) => Unary(op, Strip(operand))
    case Binary(op, l, r) => Binary(op, Strip(l), Strip(r))
    case _ => e
  }

  /** What the language's trees satisfy: tuples have at least two items, and fields are
      taken of postfix expressions. */
  predicate WellFormed(e: Expr)
    decreases e
  {
    match e
    case Grouping(inner) => WellFormed(inner)
    case Tuple(items) => |items| >= 2 && forall i :: 0 <= i < |items| ==> WellFormed(items[i])
    case Call(callee, args) => WellFormed(callee) && forall i :: 0 <= i < |args| ==> WellFormed(args[i])
    case FieldAccess(target, _) => WellFormed(target) && Level(target) == POSTFIX_PREC
    case Unary(_, operand) => WellFormed(operand)
    case Binary(_, l, r) => WellFormed(l) && WellFormed(r)
    case _ => true
  }

  /** The tree with a grouping wherever parentheses are printed. */
  function Explicit(e: Expr, parentPrec: nat, position: Position): Expr
    decreases e, 1
  {
    if e.Grouping? then Grouping(Explicit(e.inner, PREC_LOWEST, Top))
    else if NeedsParentheses(Precedence(e), parentPrec, position) then Grouping(ExplicitParts(e))
    else ExplicitParts(e)
  }

  function ExplicitParts(e: Expr): Expr
    requires !e.Grouping?
    decreases e, 0
  {
    match e
    case Tuple(items) => Tuple(seq(|items|, i requires 0 <= i < |items| => Explicit(items[i], PREC_LOWEST, Top)))
    case Call(callee, args) =>
      Call(Explicit(callee, PREC_FIELD_ACCESS, Left),
           seq(|args|, i requires 0 <= i < |args| => Explicit(args[i], PREC_LOWEST, Top)))
    case FieldAccess(target, field) => FieldAccess(Explicit(target, PREC_PRIMARY, Top), field)
    case Unary(op, operand) => Unary(op, Explicit(operand, PREC_UNARY, UnaryOperand))
    case Binary(op, l, r) =>
      Binary(op, Explicit(l, PrecedenceBinary(op), Left), Explicit(r, PrecedenceBinary(op), Right))
    case _ => e
  }

  function ExplicitAll(es: seq<Expr>): (r: seq<Expr>)
    ensures |r| == |es| && forall i :: 0 <= i < |es| ==> r[i] == Explicit(es[i], PREC_LOWEST, Top)
  {
    seq(|es|, i requires 0 <= i < |es| => Explicit(es[i], PREC_LOWEST, Top))
  }

  // ---- The printer's table is the grammar's.

  lemma SameTable(e: Expr)
    requires !e.Grouping?
    ensures Precedence(e) >= Level(e) && (Level(e) < POSTFIX_PREC ==> Precedence(e) == Level(e))
  {
  }

  /** What is printed is what the explicit tree derives. */
  lemma {:induction false} PrintsExplicit(e: Expr, parentPrec: nat, position: Position, k: Tokens)
    ensures ExprWithPrec(e, parentPrec, position, k) == Yield(Explicit(e, parentPrec, position), k)
    decreases e, 1
  {
    if e.Grouping? {
      PrintsExplicit(e.inner, PREC_LOWEST, Top, Tok(RParen, k));
    } else {
      BareExplicit(e, k);
      BareExplicit(e, Tok(RParen, k));
    }
  }

  lemma {:induction false} BareExplicit(e: Expr, k: Tokens)
    requires !e.Grouping?
    ensures Bare(e, k) == Yield(ExplicitParts(e), k)
    decreases e, 0
  {
    match e
    case Tuple(items) => ItemsExplicit(items, Tok(RParen, k));
    case Call(callee, args) =>
      ItemsExplicit(args, Tok(RParen, k));
      PrintsExplicit(callee, PREC_FIELD_ACCESS, Left, Tok(LParen, ItemsToDoc(args, Tok(RParen, k))));
      assert ExplicitParts(e).args == ExplicitAll(args);
    case FieldAccess(target, field) => PrintsExplicit(target, PREC_PRIMARY, Top, Tok(Dot, Tok(Name(field), k)));
    case Unary(_, operand) => PrintsExplicit(operand, PREC_UNARY, UnaryOperand, k);
    case Binary(op, l, r) =>
      PrintsExplicit(r, PrecedenceBinary(op), Right, k);
      PrintsExplicit(l, PrecedenceBinary(op), Left, Tok(Op(op), ExprWithPrec(r, PrecedenceBinary(op), Right, k)));
    case _ =>
  }

  lemma {:induction false} ItemsExplicit(items: seq<Expr>, k: Tokens)
    ensures ItemsToDoc(items, k) == YieldItems(ExplicitAll(items), k)
    decreases items, 2
  {
    if |items| == 1 {
      PrintsExplicit(items[0], PREC_LOWEST, Top, k);
    } else if |items| > 1 {
      ItemsExplicit(items[1..], k);
      assert ExplicitAll(items)[1..] == ExplicitAll(items[1..]);
      PrintsExplicit(items[0], PREC_LOWEST, Top, Tok(Comma, ItemsToDoc(items[1..], k)));
    }
  }

  /** How tightly an explicit child binds: parentheses are there where they must be. */
  lemma ExplicitLevel(e: Expr, parentPrec: nat, position: Position)
    requires !position.Top? && parentPrec <= POSTFIX_PREC
    ensures Level(Explicit(e, parentPrec, position)) >= parentPrec
    ensures position.Right? && parentPrec < UNARY_PREC ==> Level(Explicit(e, parentPrec, position)) > parentPrec
  {
    if !e.Grouping? {
      SameTable(e);
    }
  }

  /** The explicit tree is one that the grammar derives. */
  lemma {:induction false} ExplicitDerivable(e: Expr, parentPrec: nat, position: Position)
    requires WellFormed(e)
    ensures Derivable(Explicit(e, parentPrec, position))
    ensures Level(e) == POSTFIX_PREC ==> Level(Explicit(e, parentPrec, position)) == POSTFIX_PREC
    decreases e, 1
  {
    if e.Grouping? {
      ExplicitDerivable(e.inner, PREC_LOWEST, Top);
    } else {
      PartsDerivable(e);
    }
  }

  lemma {:induction false} PartsDerivable(e: Expr)
    requires WellFormed(e) && !e.Grouping?
    ensures Derivable(ExplicitParts(e)) && Level(ExplicitParts(e)) == Level(e)
    decreases e, 0
  {
    match e
    case Tuple(items) => AllExplicitDerivable(items);
    case Call(callee, args) =>
      AllExplicitDerivable(args);
      ExplicitDerivable(callee, PREC_FIELD_ACCESS, Left);
      ExplicitLevel(callee, PREC_FIELD_ACCESS, Left);
      assert ExplicitParts(e).args == ExplicitAll(args);
    case FieldAccess(target, field) => ExplicitDerivable(target, PREC_PRIMARY, Top);
    case Unary(_, operand) =>
      ExplicitDerivable(operand, PREC_UNARY, UnaryOperand);
      ExplicitLevel(operand, PREC_UNARY, UnaryOperand);
    case Binary(op, l, r) =>
      ExplicitDerivable(l, PrecedenceBinary(op), Left);
      ExplicitLevel(l, PrecedenceBinary(op), Left);
      ExplicitDerivable(r, PrecedenceBinary(op), Right);
      ExplicitLevel(r, PrecedenceBinary(op), Right);
    case _ =>
  }

  lemma {:induction false} AllExplicitDerivable(es: seq<Expr>)
    requires forall i :: 0 <= i < |es| ==> WellFormed(es[i])
    ensures AllDerivable(ExplicitAll(es))
    decreases es, 2
  {
    forall i | 0 <= i < |es|
      ensures Derivable(ExplicitAll(es)[i])
    {
      ExplicitDerivable(es[i], PREC_LOWEST, Top);
    }
  }

  /** Making groupings explicit changes nothing else. */
  lemma {:induction false} ExplicitStrips(e: Expr, parentPrec: nat, position: Position)
    ensures Strip(Explicit(e, parentPrec, position)) == Strip(e)
    decreases e, 1
  {
    if e.Grouping? {
      ExplicitStrips(e.inner, PREC_LOWEST, Top);
    } else {
      PartsStrip(e);
    }
  }

  lemma {:induction false} PartsStrip(e: Expr)
    requires !e.Grouping?
    ensures Strip(ExplicitParts(e)) == Strip(e)
    decreases e, 0
  {
    match e
    case Tuple(items) =>
      forall i | 0 <= i < |items|
        ensures Strip(Explicit(items[i], PREC_LOWEST, Top)) == Strip(items[i])
      {
        ExplicitStrips(items[i], PREC_LOWEST, Top);
      }
      assert Strip(ExplicitParts(e)).items == Strip(e).items;
    case Call(callee, args) =>
      ExplicitStrips(callee, PREC_FIELD_ACCESS, Left);
      forall i | 0 <= i < |args|
        ensures Strip(Explicit(args[i], PREC_LOWEST, Top)) == Strip(args[i])
      {
        ExplicitStrips(args[i], PREC_LOWEST, Top);
      }
      assert Strip(ExplicitParts(e)).args == Strip(e).args;
    case FieldAccess(target, _) => ExplicitStrips(target, PREC_PRIMARY, Top);
    case Unary(_, operand) => ExplicitStrips(operand, PREC_UNARY, UnaryOperand);
    case Binary(op, l, r) =>
      ExplicitStrips(l, PrecedenceBinary(op), Left);
      ExplicitStrips(r, PrecedenceBinary(op), Right);
    case _ =>
  }

  /** A derivable tree needs no further parentheses where it stands. */
  predicate Fits(e: Expr, parentPrec: nat, position: Position) {
    e.Grouping? || !NeedsParentheses(Precedence(e), parentPrec, position)
  }

  lemma {:induction false} DerivableIsExplicit(e: Expr, parentPrec: nat, position: Position)
    requires Derivable(e) && Fits(e, parentPrec, position)
    ensures Explicit(e, parentPrec, position) == e
    decreases e
  {
    match e
    case Grouping(inner) => DerivableIsExplicit(inner, PREC_LOWEST, Top);
    case Tuple(items) =>
      AllExplicitAlready(e, items);
      assert ExplicitParts(e).items == items;
    case Call(callee, args) =>
      AllExplicitAlready(e, args);
      assert ExplicitParts(e).args == args;
      DerivableIsExplicit(callee, PREC_FIELD_ACCESS, Left);
    case FieldAccess(target, _) => DerivableIsExplicit(target, PREC_PRIMARY, Top);
    case Unary(_, operand) => DerivableIsExplicit(operand, PREC_UNARY, UnaryOperand);
    case Binary(op, l, r) =>
      DerivableIsExplicit(l, PrecedenceBinary(op), Left);
      DerivableIsExplicit(r, PrecedenceBinary(op), Right);
    case _ =>
  }

  lemma {:induction false} AllExplicitAlready(e: Expr, es: seq<Expr>)
    requires AllDerivable(es) && forall i :: 0 <= i < |es| ==> es[i] < e
    ensures forall i :: 0 <= i < |es| ==> Explicit(es[i], PREC_LOWEST, Top) == es[i]
    decreases e, 0
  {
    forall i | 0 <= i < |es|
      ensures Explicit(es[i], PREC_LOWEST, Top) == es[i]
    {
      DerivableIsExplicit(es[i], PREC_LOWEST, Top);
    }
  }

  // ---- The round trips.

  /** Printing and parsing gives the same tree up to groupings, and printing that tree
      again gives the same tokens. */
  lemma PrintThenParse(e: Expr)
    requires WellFormed(e)
    ensures Parse(Print(e)).Some?
    ensures Strip(Parse(Print(e)).value) == Strip(e)
    ensures Print(Parse(Print(e)).value) == Print(e)
  {
    var g := Explicit(e, PREC_LOWEST, Top);
    PrintsExplicit(e, PREC_LOWEST, Top, End);
    ExplicitDerivable(e, PREC_LOWEST, Top);
    YieldIsParsed(g);
    ExplicitStrips(e, PREC_LOWEST, Top);
    PrintsExplicit(g, PREC_LOWEST, Top, End);
    DerivableIsExplicit(g, PREC_LOWEST, Top);
  }

  /** Formatting a parsed expression loses nothing, groupings included: the printed
      tokens are those it came from, but for trailing commas, and parse to the very same
      tree. */
  lemma ParseThenPrint(ts: Tokens)
    requires Parse(ts).Some?
    ensures Parse(Print(Parse(ts).value)) == Parse(ts)
    ensures Print(Parse(ts).value) == WithoutTrailing(ts)
  {
    var g := Parse(ts).value;
    ParsedIsDerivable(ts);
    PrintsExplicit(g, PREC_LOWEST, Top, End);
    DerivableIsExplicit(g, PREC_LOWEST, Top);
    YieldIsParsed(g);
  }

  /** Trees that differ only in groupings, and print alike, parse alike: no two trees of
      the language that differ otherwise have the same text. */
  lemma PrintIsInjective(a: Expr, b: Expr)
    requires WellFormed(a) && WellFormed(b) && Print(a) == Print(b)
    ensures Strip(a) == Strip(b)
  {
    PrintThenParse(a);
    PrintThenParse(b);
  }
}

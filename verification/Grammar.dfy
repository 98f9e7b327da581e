/** Operator expressions, their tokens, and a parser for the grammar's precedence table
    (`tree-sitter-starstream/grammar.js`). */
module Grammar {
  import opened Options

  datatype UnaryOp = Negate | Not

  datatype BinaryOp =
    | Multiply | Divide | Remainder | Add | Subtract
    | Less | LessEqual | Greater | GreaterEqual | Equal | NotEqual | And | Or

  datatype Literal = Integer(n: nat) | Boolean(b: bool) | Unit

  datatype Expr =
    | Grouping(inner: Expr)
    | ScopedName(name: string)
    | Lit(literal: Literal)
    | Tuple(items: seq<Expr>)
    | Call(callee: Expr, args: seq<Expr>)
    | FieldAccess(target: Expr, field: string)
    | Unary(uop: UnaryOp, operand: Expr)
    | Binary(bop: BinaryOp, left: Expr, right: Expr)

  /** The minus sign is one token, whether it negates or subtracts. */
  datatype Token =
    | LParen | RParen | Comma | Dot | Bang
    | Op(op: BinaryOp)
    | Name(name: string)
    | Number(n: nat)
    | Truth(b: bool)

  datatype Tokens = End | Tok(t: Token, rest: Tokens)

  function Len(ts: Tokens): nat {
    if ts.End? then 0 else 1 + Len(ts.rest)
  }

  /** The table: prec.left(1) for `||` up to prec.left(6) for `*`, `/` and `%`. */
  function TablePrec(op: BinaryOp): nat {
    match op
    case Or => 1
    case And => 2
    case Equal | NotEqual => 3
    case Less | LessEqual | Greater | GreaterEqual => 4
    case Add | Subtract => 5
    case Multiply | Divide | Remainder => 6
  }

  const UNARY_PREC: nat := 7
  const POSTFIX_PREC: nat := 8

  /** How tightly a tree binds as it is written. */
  function Level(e: Expr): nat {
    match e
    case Binary(op, _, _) => TablePrec(op)
    case Unary(_, _) => UNARY_PREC
    case _ => POSTFIX_PREC
  }

  /** Trees that the grammar derives: operators of one precedence associate to the left,
      a unary operator applies to a unary or postfix expression, calls and field accesses
      to postfix expressions, and a tuple has at least two items. */
  predicate Derivable(e: Expr)
    decreases e, 0
  {
    match e
    case Grouping(inner) => Derivable(inner)
    case Tuple(items) => |items| >= 2 && AllDerivable(items)
    case Call(callee, args) => Level(callee) == POSTFIX_PREC && Derivable(callee) && AllDerivable(args)
    case FieldAccess(target, _) => Level(target) == POSTFIX_PREC && Derivable(target)
    case Unary(_, operand) => Level(operand) >= UNARY_PREC && Derivable(operand)
    case Binary(op, l, r) =>
      Level(l) >= TablePrec(op) && Level(r) > TablePrec(op) && Derivable(l) && Derivable(r)
    case _ => true
  }

  predicate AllDerivable(es: seq<Expr>)
    decreases es, 1
  {
    forall k :: 0 <= k < |es| ==> Derivable(es[k])
  }

  function UnaryToken(op: UnaryOp): Token {
    if op.Negate? then Op(Subtract) else Bang
  }

  function LiteralOnto(l: Literal, k: Tokens): Tokens {
    match l
    case Integer(n) => Tok(Number(n), k)
    case Boolean(b) => Tok(Truth(b), k)
    case Unit => Tok(LParen, Tok(RParen, k))
  }

  /** The tokens a tree derives, followed by k. */
  function Yield(e: Expr, k: Tokens): Tokens
    decreases e, 0
  {
    match e
    case Grouping(inner) => Tok(LParen, Yield(inner, Tok(RParen, k)))
    case ScopedName(name) => Tok(Name(name), k)
    case Lit(l) => LiteralOnto(l, k)
    case Tuple(items) => Tok(LParen, YieldItems(items, Tok(RParen, k)))
    case Call(callee, args) => Yield(callee, Tok(LParen, YieldItems(args, Tok(RParen, k))))
    case FieldAccess(target, field) => Yield(target, Tok(Dot, Tok(Name(field), k)))
    case Unary(op, operand) => Tok(UnaryToken(op), Yield(operand, k))
    case Binary(op, l, r) => Yield(l, Tok(Op(op), Yield(r, k)))
  }

  function YieldItems(items: seq<Expr>, k: Tokens): Tokens
    decreases items, 1
  {
    if items == [] then k
    else if |items| == 1 then Yield(items[0], k)
    else Yield(items[0], Tok(Comma, YieldItems(items[1..], k)))
  }

  // ---- The parser.

  datatype Parsed = Parsed(e: Expr, rest: Tokens)
  datatype ParsedItems = ParsedItems(es: seq<Expr>, rest: Tokens)

  /** An expression whose operators bind tighter than min. */
  function ParseBinary(ts: Tokens, min: nat): (r: Option<Parsed>)
    ensures r.Some? ==> Len(r.value.rest) < Len(ts)
    decreases Len(ts), 3
  {
    var l := ParseUnary(ts);
    if l.None? then None else Climb(l.value.rest, l.value.e, min)
  }

  /** Take operators that bind tighter than min, from the left. */
  function Climb(ts: Tokens, left: Expr, min: nat): (r: Option<Parsed>)
    ensures r.Some? ==> Len(r.value.rest) <= Len(ts)
    decreases Len(ts), 4
  {
    if ts.Tok? && ts.t.Op? && TablePrec(ts.t.op) > min then
      var r := ParseBinary(ts.rest, TablePrec(ts.t.op));
      if r.None? then None else Climb(r.value.rest, Binary(ts.t.op, left, r.value.e), min)
    else Some(Parsed(left, ts))
  }

  function ParseUnary(ts: Tokens): (r: Option<Parsed>)
    ensures r.Some? ==> Len(r.value.rest) < Len(ts)
    decreases Len(ts), 2
  {
    if ts.Tok? && (ts.t == Bang || ts.t == Op(Subtract)) then
      var r := ParseUnary(ts.rest);
      if r.None? then None
      else Some(Parsed(Unary(if ts.t == Bang then Not else Negate, r.value.e), r.value.rest))
    else
      var p := ParsePrimary(ts);
      if p.None? then None else Suffixes(p.value.rest, p.value.e)
  }

  /** Arguments and field accesses, from the left. */
  function Suffixes(ts: Tokens, e: Expr): (r: Option<Parsed>)
    ensures r.Some? ==> Len(r.value.rest) <= Len(ts)
    decreases Len(ts), 1
  {
    if ts.Tok? && ts.t == Dot then
      if ts.rest.Tok? && ts.rest.t.Name? then
        assert Len(ts.rest) == 1 + Len(ts.rest.rest);
        Suffixes(ts.rest.rest, FieldAccess(e, ts.rest.t.name))
      else None
    else if ts.Tok? && ts.t == LParen then
      var args := ParseItems(ts.rest);
      if args.None? then None else Suffixes(args.value.rest, Call(e, args.value.es))
    else Some(Parsed(e, ts))
  }

  /** Unit, a grouping or a tuple after an opening parenthesis; a name or a literal. */
  function ParsePrimary(ts: Tokens): (r: Option<Parsed>)
    ensures r.Some? ==> Len(r.value.rest) < Len(ts)
    decreases Len(ts), 0
  {
    if ts.End? then None
    else
      match ts.t
      case Name(name) => Some(Parsed(ScopedName(name), ts.rest))
      case Number(n) => Some(Parsed(Lit(Integer(n)), ts.rest))
      case Truth(b) => Some(Parsed(Lit(Boolean(b)), ts.rest))
      case LParen =>
        if ts.rest.Tok? && ts.rest.t == RParen then Some(Parsed(Lit(Unit), ts.rest.rest))
        else
          var first := ParseBinary(ts.rest, 0);
          if first.None? || first.value.rest.End? then None
          else if first.value.rest.t == RParen then Some(Parsed(Grouping(first.value.e), first.value.rest.rest))
          else if first.value.rest.t == Comma then
            var more := ParseItems(first.value.rest.rest);
            if more.None? || more.value.es == [] then None
            else Some(Parsed(Tuple([first.value.e] + more.value.es), more.value.rest))
          else None
      case _ => None
  }

  /** Expressions separated by commas, a trailing comma allowed, up to and over the
      closing parenthesis. */
  function ParseItems(ts: Tokens): (r: Option<ParsedItems>)
    ensures r.Some? ==> Len(r.value.rest) < Len(ts)
    decreases Len(ts), 5
  {
    if ts.Tok? && ts.t == RParen then Some(ParsedItems([], ts.rest))
    else
      var first := ParseBinary(ts, 0);
      if first.None? || first.value.rest.End? then None
      else if first.value.rest.t == RParen then Some(ParsedItems([first.value.e], first.value.rest.rest))
      else if first.value.rest.t == Comma then
        var more := ParseItems(first.value.rest.rest);
        if more.None? then None else Some(ParsedItems([first.value.e] + more.value.es, more.value.rest))
      else None
  }

  /** A whole token list as one expression. */
  function Parse(ts: Tokens): Option<Expr> {
    var r := ParseBinary(ts, 0);
    if r.Some? && r.value.rest.End? then Some(r.value.e) else None
  }

  // ---- Only derivable trees are parsed.

  lemma {:induction false} BinaryDerivable(ts: Tokens, min: nat)
    requires min < UNARY_PREC && ParseBinary(ts, min).Some?
    ensures Derivable(ParseBinary(ts, min).value.e) && Level(ParseBinary(ts, min).value.e) > min
    decreases Len(ts), 3
  {
    UnaryDerivable(ts);
    var l := ParseUnary(ts).value;
    ClimbDerivable(l.rest, l.e, min);
  }

  lemma {:induction false} ClimbDerivable(ts: Tokens, left: Expr, min: nat)
    requires min < UNARY_PREC && Derivable(left) && Level(left) > min && Climb(ts, left, min).Some?
    requires LeftFits(ts, left)
    ensures Derivable(Climb(ts, left, min).value.e) && Level(Climb(ts, left, min).value.e) > min
    decreases Len(ts), 4
  {
    if ts.Tok? && ts.t.Op? && TablePrec(ts.t.op) > min {
      var p := TablePrec(ts.t.op);
      BinaryDerivable(ts.rest, p);
      BinaryStops(ts.rest, p);
      var r := ParseBinary(ts.rest, p).value;
      ClimbDerivable(r.rest, Binary(ts.t.op, left, r.e), min);
    }
  }

  /** An operator that follows may take what is on its left. */
  predicate LeftFits(ts: Tokens, left: Expr) {
    ts.Tok? && ts.t.Op? ==> TablePrec(ts.t.op) <= Level(left)
  }

  predicate Stops(ts: Tokens, min: nat) {
    ts.Tok? && ts.t.Op? ==> TablePrec(ts.t.op) <= min
  }

  /** A parsed expression is not followed by an operator it could have taken. */
  lemma {:induction false} BinaryStops(ts: Tokens, min: nat)
    requires ParseBinary(ts, min).Some?
    ensures Stops(ParseBinary(ts, min).value.rest, min)
  {
    var l := ParseUnary(ts).value;
    ClimbStops(l.rest, l.e, min);
  }

  lemma {:induction false} ClimbStops(ts: Tokens, left: Expr, min: nat)
    requires Climb(ts, left, min).Some?
    ensures Stops(Climb(ts, left, min).value.rest, min)
    decreases Len(ts)
  {
    if ts.Tok? && ts.t.Op? && TablePrec(ts.t.op) > min {
      var r := ParseBinary(ts.rest, TablePrec(ts.t.op)).value;
      ClimbStops(r.rest, Binary(ts.t.op, left, r.e), min);
    }
  }

  lemma {:induction false} UnaryDerivable(ts: Tokens)
    requires ParseUnary(ts).Some?
    ensures Derivable(ParseUnary(ts).value.e) && Level(ParseUnary(ts).value.e) >= UNARY_PREC
    decreases Len(ts), 2
  {
    if ts.Tok? && (ts.t == Bang || ts.t == Op(Subtract)) {
      UnaryDerivable(ts.rest);
    } else {
      PrimaryDerivable(ts);
      var p := ParsePrimary(ts).value;
      SuffixesDerivable(p.rest, p.e);
    }
  }

  lemma {:induction false} SuffixesDerivable(ts: Tokens, e: Expr)
    requires Derivable(e) && Level(e) == POSTFIX_PREC && Suffixes(ts, e).Some?
    ensures Derivable(Suffixes(ts, e).value.e) && Level(Suffixes(ts, e).value.e) == POSTFIX_PREC
    decreases Len(ts), 1
  {
    if ts.Tok? && ts.t == Dot {
      assert Len(ts.rest) == 1 + Len(ts.rest.rest);
      SuffixesDerivable(ts.rest.rest, FieldAccess(e, ts.rest.t.name));
    } else if ts.Tok? && ts.t == LParen {
      ItemsDerivable(ts.rest);
      var args := ParseItems(ts.rest).value;
      SuffixesDerivable(args.rest, Call(e, args.es));
    }
  }

  lemma {:induction false} PrimaryDerivable(ts: Tokens)
    requires ParsePrimary(ts).Some?
    ensures Derivable(ParsePrimary(ts).value.e) && Level(ParsePrimary(ts).value.e) == POSTFIX_PREC
    decreases Len(ts), 0
  {
    if ts.t == LParen && !(ts.rest.Tok? && ts.rest.t == RParen) {
      BinaryDerivable(ts.rest, 0);
      var first := ParseBinary(ts.rest, 0).value;
      if first.rest.t == Comma {
        ItemsDerivable(first.rest.rest);
      }
    }
  }

  lemma {:induction false} ItemsDerivable(ts: Tokens)
    requires ParseItems(ts).Some?
    ensures AllDerivable(ParseItems(ts).value.es)
    decreases Len(ts), 5
  {
    if !(ts.Tok? && ts.t == RParen) {
      BinaryDerivable(ts, 0);
      var first := ParseBinary(ts, 0).value;
      if first.rest.t == Comma {
        ItemsDerivable(first.rest.rest);
      }
    }
  }

  // ---- A parsed tree has exactly the tokens it was parsed from.

  /** Without the commas that the grammar allows before a closing parenthesis. */
  function WithoutTrailing(ts: Tokens): Tokens {
    if ts.End? then End
    else if ts.t == Comma && ts.rest.Tok? && ts.rest.t == RParen then WithoutTrailing(ts.rest)
    else Tok(ts.t, WithoutTrailing(ts.rest))
  }

  lemma {:induction false} BinaryTokens(ts: Tokens, min: nat)
    requires ParseBinary(ts, min).Some?
    ensures WithoutTrailing(ts) == Yield(ParseBinary(ts, min).value.e, WithoutTrailing(ParseBinary(ts, min).value.rest))
    decreases Len(ts), 3
  {
    UnaryTokens(ts);
    var l := ParseUnary(ts).value;
    ClimbTokens(l.rest, l.e, min);
  }

  lemma {:induction false} ClimbTokens(ts: Tokens, left: Expr, min: nat)
    requires Climb(ts, left, min).Some?
    ensures Yield(left, WithoutTrailing(ts))
         == Yield(Climb(ts, left, min).value.e, WithoutTrailing(Climb(ts, left, min).value.rest))
    decreases Len(ts), 4
  {
    if ts.Tok? && ts.t.Op? && TablePrec(ts.t.op) > min {
      BinaryTokens(ts.rest, TablePrec(ts.t.op));
      var r := ParseBinary(ts.rest, TablePrec(ts.t.op)).value;
      ClimbTokens(r.rest, Binary(ts.t.op, left, r.e), min);
    }
  }

  lemma {:induction false} UnaryTokens(ts: Tokens)
    requires ParseUnary(ts).Some?
    ensures WithoutTrailing(ts) == Yield(ParseUnary(ts).value.e, WithoutTrailing(ParseUnary(ts).value.rest))
    decreases Len(ts), 2
  {
    if ts.Tok? && (ts.t == Bang || ts.t == Op(Subtract)) {
      UnaryTokens(ts.rest);
    } else {
      PrimaryTokens(ts);
      var p := ParsePrimary(ts).value;
      SuffixesTokens(p.rest, p.e);
    }
  }

  lemma {:induction false} SuffixesTokens(ts: Tokens, e: Expr)
    requires Suffixes(ts, e).Some?
    ensures Yield(e, WithoutTrailing(ts)) == Yield(Suffixes(ts, e).value.e, WithoutTrailing(Suffixes(ts, e).value.rest))
    decreases Len(ts), 1
  {
    hide ParseItems;
    if ts.Tok? && ts.t == Dot {
      assert Len(ts.rest) == 1 + Len(ts.rest.rest);
      SuffixesTokens(ts.rest.rest, FieldAccess(e, ts.rest.t.name));
    } else if ts.Tok? && ts.t == LParen {
      ItemsTokens(ts.rest);
      var args := ParseItems(ts.rest).value;
      SuffixesTokens(args.rest, Call(e, args.es));
    }
  }

  lemma {:induction false} PrimaryTokens(ts: Tokens)
    requires ParsePrimary(ts).Some?
    ensures WithoutTrailing(ts) == Yield(ParsePrimary(ts).value.e, WithoutTrailing(ParsePrimary(ts).value.rest))
    decreases Len(ts), 0
  {
    if ts.t == LParen && !(ts.rest.Tok? && ts.rest.t == RParen) {
      BinaryTokens(ts.rest, 0);
      var first := ParseBinary(ts.rest, 0).value;
      if first.rest.t == Comma {
        ItemsTokens(first.rest.rest);
        OneMoreItem(first.e, first.rest);
      }
    }
  }

  lemma {:induction false} ItemsTokens(ts: Tokens)
    requires ParseItems(ts).Some?
    ensures WithoutTrailing(ts)
         == YieldItems(ParseItems(ts).value.es, Tok(RParen, WithoutTrailing(ParseItems(ts).value.rest)))
    decreases Len(ts), 5
  {
    if !(ts.Tok? && ts.t == RParen) {
      BinaryTokens(ts, 0);
      var first := ParseBinary(ts, 0).value;
      if first.rest.t == Comma {
        ItemsTokens(first.rest.rest);
        OneMoreItem(first.e, first.rest);
      }
    }
  }

  /** An item, a comma, and more items, of which there may be none. */
  lemma OneMoreItem(e: Expr, ts: Tokens)
    requires ts.Tok? && ts.t == Comma && ParseItems(ts.rest).Some?
    requires WithoutTrailing(ts.rest)
          == YieldItems(ParseItems(ts.rest).value.es, Tok(RParen, WithoutTrailing(ParseItems(ts.rest).value.rest)))
    ensures Yield(e, WithoutTrailing(ts))
         == YieldItems([e] + ParseItems(ts.rest).value.es, Tok(RParen, WithoutTrailing(ParseItems(ts.rest).value.rest)))
  {
    hide Yield, ParseBinary;
    var more := ParseItems(ts.rest).value;
    assert ([e] + more.es)[1..] == more.es;
  }

  /** Whatever the tokens, a parsed tree is one the precedence table allows, and its
      tokens are the parsed ones but for commas before a closing parenthesis. */
  lemma ParsedIsDerivable(ts: Tokens)
    requires Parse(ts).Some?
    ensures Derivable(Parse(ts).value) && Yield(Parse(ts).value, End) == WithoutTrailing(ts)
  {
    BinaryDerivable(ts, 0);
    BinaryTokens(ts, 0);
  }

  // ---- Every derivable tree is the parse of its tokens.

  /** k does not continue a postfix expression. */
  predicate NoSuffix(k: Tokens) {
    k.Tok? ==> k.t != Dot && k.t != LParen
  }

  lemma {:induction false} YieldPostfix(e: Expr, k: Tokens)
    requires Derivable(e) && Level(e) == POSTFIX_PREC
    ensures ParseUnary(Yield(e, k)) == Suffixes(k, e)
    decreases e, 1
  {
    hide ParseItems, YieldItems, ParseBinary, Climb, Suffixes;
    match e
    case Grouping(inner) => GroupingParses(inner, k);
    case Tuple(items) => TupleParses(items, k);
    case Call(callee, args) =>
      YieldPostfix(callee, Tok(LParen, YieldItems(args, Tok(RParen, k))));
      ItemsParse(args, k);
      CallSuffix(callee, args, k);
    case FieldAccess(target, field) =>
      YieldPostfix(target, Tok(Dot, Tok(Name(field), k)));
      DotSuffix(target, field, k);
    case _ =>
  }

  lemma DotSuffix(target: Expr, field: string, k: Tokens)
    ensures Suffixes(Tok(Dot, Tok(Name(field), k)), target) == Suffixes(k, FieldAccess(target, field))
  {
  }

  lemma CallSuffix(callee: Expr, args: seq<Expr>, k: Tokens)
    requires ParseItems(YieldItems(args, Tok(RParen, k))) == Some(ParsedItems(args, k))
    ensures Suffixes(Tok(LParen, YieldItems(args, Tok(RParen, k))), callee) == Suffixes(k, Call(callee, args))
  {
    hide ParseItems, YieldItems;
  }

  lemma {:induction false} GroupingParses(inner: Expr, k: Tokens)
    requires Derivable(inner)
    ensures ParsePrimary(Tok(LParen, Yield(inner, Tok(RParen, k)))) == Some(Parsed(Grouping(inner), k))
    decreases inner, 5
  {
    YieldParses(inner, Tok(RParen, k), 0);
    NotClosing(inner, Tok(RParen, k));
  }

  /** An expression never starts with a closing parenthesis. */
  lemma {:induction false} NotClosing(e: Expr, k: Tokens)
    ensures Yield(e, k).Tok? && Yield(e, k).t != RParen
    decreases e
  {
    match e
    case Call(callee, args) => NotClosing(callee, Tok(LParen, YieldItems(args, Tok(RParen, k))));
    case FieldAccess(target, field) => NotClosing(target, Tok(Dot, Tok(Name(field), k)));
    case Binary(op, l, r) => NotClosing(l, Tok(Op(op), Yield(r, k)));
    case _ =>
  }

  lemma {:induction false} TupleParses(items: seq<Expr>, k: Tokens)
    requires |items| >= 2 && AllDerivable(items)
    ensures ParsePrimary(Tok(LParen, YieldItems(items, Tok(RParen, k)))) == Some(Parsed(Tuple(items), k))
    decreases items, 3
  {
    var after := Tok(Comma, YieldItems(items[1..], Tok(RParen, k)));
    YieldParses(items[0], after, 0);
    NotClosing(items[0], after);
    ItemsParse(items[1..], k);
    assert [items[0]] + items[1..] == items;
  }

  lemma {:induction false} ItemsParse(items: seq<Expr>, k: Tokens)
    requires AllDerivable(items)
    ensures ParseItems(YieldItems(items, Tok(RParen, k))) == Some(ParsedItems(items, k))
    decreases items, 3
  {
    if |items| == 1 {
      YieldParses(items[0], Tok(RParen, k), 0);
      NotClosing(items[0], Tok(RParen, k));
      assert items == [items[0]];
    } else if |items| > 1 {
      var after := Tok(Comma, YieldItems(items[1..], Tok(RParen, k)));
      YieldParses(items[0], after, 0);
      NotClosing(items[0], after);
      ItemsParse(items[1..], k);
      assert [items[0]] + items[1..] == items;
    }
  }

  lemma NoMoreSuffixes(k: Tokens, e: Expr)
    requires NoSuffix(k)
    ensures Suffixes(k, e) == Some(Parsed(e, k))
  {
  }

  /** A tree of unary or postfix level. */
  lemma {:induction false} YieldUnary(e: Expr, k: Tokens)
    requires Derivable(e) && Level(e) >= UNARY_PREC && NoSuffix(k)
    ensures ParseUnary(Yield(e, k)) == Some(Parsed(e, k))
    decreases e, 2
  {
    hide ParsePrimary, ParseItems, YieldItems, ParseBinary, Climb;
    if e.Unary? {
      YieldUnary(e.operand, k);
    } else {
      YieldPostfix(e, k);
      NoMoreSuffixes(k, e);
    }
  }

  /** Parsing the tokens of a tree arrives, after it, at the choice of going on. */
  lemma {:induction false} YieldClimbs(e: Expr, k: Tokens, min: nat)
    requires Derivable(e) && Level(e) > min && NoSuffix(k) && Stops(k, Level(e))
    ensures ParseBinary(Yield(e, k), min) == Climb(k, e, min)
    decreases e, 3
  {
    if e.Binary? {
      var p := TablePrec(e.bop);
      var after := Tok(Op(e.bop), Yield(e.right, k));
      YieldClimbs(e.left, after, min);
      YieldClimbs(e.right, k, p);
      assert Climb(k, e.right, p) == Some(Parsed(e.right, k));
    } else {
      YieldUnary(e, k);
    }
  }

  lemma {:induction false} YieldParses(e: Expr, k: Tokens, min: nat)
    requires Derivable(e) && Level(e) > min && NoSuffix(k) && Stops(k, min)
    ensures ParseBinary(Yield(e, k), min) == Some(Parsed(e, k))
    decreases e, 4
  {
    YieldClimbs(e, k, min);
  }

  /** Tokens without trailing commas parse exactly to the derivable tree they derive. */
  lemma ParseExactly(ts: Tokens, e: Expr)
    requires WithoutTrailing(ts) == ts
    ensures Parse(ts) == Some(e) <==> Derivable(e) && Yield(e, End) == ts
  {
    if Parse(ts).Some? {
      ParsedIsDerivable(ts);
    }
    if Derivable(e) && Yield(e, End) == ts {
      YieldIsParsed(e);
    }
  }

  /** The grammar is unambiguous under its table: a derivable tree is the one parse of
      the tokens it derives. */
  lemma YieldIsParsed(e: Expr)
    requires Derivable(e)
    ensures Parse(Yield(e, End)) == Some(e)
  {
    hide Derivable, Yield, ParseBinary;
    YieldParses(e, End, 0);
  }
}

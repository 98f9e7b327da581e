/** Which trees survive printing: those whose field accesses have postfix targets, and
    no others. */
module Groupings {
  import opened Grammar
  import opened Printer

  /** Every tuple has at least two items. */
  predicate TuplesOk(e: Expr)
    decreases e
  {
    match e
    case Grouping(inner) => TuplesOk(inner)
    case Tuple(items) => |items| >= 2 && forall i :: 0 <= i < |items| ==> TuplesOk(items[i])
    case Call(callee, args) => TuplesOk(callee) && forall i :: 0 <= i < |args| ==> TuplesOk(args[i])
    case FieldAccess(target, _) => TuplesOk(target)
    case Unary(_, operand) => TuplesOk(operand)
    case Binary(_, l, r) => TuplesOk(l) && TuplesOk(r)
    case _ => true
  }

  // ---- Tokens and groupings determine each other.

  function Opens(x: nat, k: Tokens): Tokens {
    if x == 0 then k else Tok(LParen, Opens(x - 1, k))
  }

  function Closes(x: nat, k: Tokens): Tokens {
    if x == 0 then k else Tok(RParen, Closes(x - 1, k))
  }

  function Grouped(x: nat, e: Expr): Expr {
    if x == 0 then e else Grouping(Grouped(x - 1, e))
  }

  /** The number of groupings around a tree, and what they are around. */
  function Outer(e: Expr): nat {
    if e.Grouping? then 1 + Outer(e.inner) else 0
  }

  function Core(e: Expr): (r: Expr)
    ensures !r.Grouping?
    decreases e
  {
    if e.Grouping? then Core(e.inner) else e
  }

  lemma {:induction false} CoreFacts(e: Expr, k: Tokens)
    ensures e == Grouped(Outer(e), Core(e)) && Strip(Core(e)) == Strip(e)
    ensures Core(e) == e || Core(e) < e
    ensures TuplesOk(e) ==> TuplesOk(Core(e))
    ensures Yield(e, k) == Opens(Outer(e), Yield(Core(e), Closes(Outer(e), k)))
    decreases e
  {
    if e.Grouping? {
      CoreFacts(e.inner, Tok(RParen, k));
      ClosesSnoc(Outer(e.inner), k);
    }
  }

  lemma {:induction false} ClosesSnoc(x: nat, k: Tokens)
    ensures Closes(x, Tok(RParen, k)) == Closes(x + 1, k)
    decreases x
  {
    if x > 0 {
      ClosesSnoc(x - 1, k);
    }
  }

  lemma {:induction false} OpensAdd(x: nat, y: nat, k: Tokens)
    ensures Opens(x, Opens(y, k)) == Opens(x + y, k)
    decreases x
  {
    if x > 0 {
      OpensAdd(x - 1, y, k);
    }
  }

  lemma {:induction false} ClosesAdd(x: nat, y: nat, k: Tokens)
    ensures Closes(x, Closes(y, k)) == Closes(x + y, k)
    decreases x
  {
    if x > 0 {
      ClosesAdd(x - 1, y, k);
    }
  }

  lemma {:induction false} GroupedAdd(x: nat, y: nat, e: Expr)
    ensures Grouped(x, Grouped(y, e)) == Grouped(x + y, e)
    decreases x
  {
    if x > 0 {
      GroupedAdd(x - 1, y, e);
    }
  }

  /** Opening parentheses up to the first other token can be counted. */
  lemma {:induction false} OpensCounted(x: nat, y: nat, j: Tokens, k: Tokens)
    requires Opens(x, j) == Opens(y, k) && (j.Tok? ==> j.t != LParen) && (k.Tok? ==> k.t != LParen)
    ensures x == y && j == k
    decreases x
  {
    if x > 0 && y > 0 {
      OpensCounted(x - 1, y - 1, j, k);
    }
  }

  lemma {:induction false} ClosesShared(x: nat, y: nat, j: Tokens, k: Tokens)
    requires y <= x && Closes(x, j) == Closes(y, k)
    ensures k == Closes(x - y, j)
    decreases y
  {
    if y > 0 {
      ClosesShared(x - 1, y - 1, j, k);
    }
  }

  /** How two trees that differ in groupings only, with x and y parentheses before them
      and j and k after them, may give the same tokens: the extra groupings of one stand
      as parentheses around the other. */
  predicate Shared(a: Expr, b: Expr, x: nat, y: nat, j: Tokens, k: Tokens) {
    if x >= y then b == Grouped(x - y, a) && j == Closes(x - y, k)
    else a == Grouped(y - x, b) && k == Closes(y - x, j)
  }

  predicate NotClose(k: Tokens) {
    k.Tok? && k.t != RParen
  }

  /** When neither is followed by a closing parenthesis there are no extra groupings. */
  lemma SharedEqual(a: Expr, b: Expr, x: nat, y: nat, j: Tokens, k: Tokens)
    requires Shared(a, b, x, y, j, k) && NotClose(j) && NotClose(k)
    ensures x == y && a == b && j == k
  {
  }

  lemma {:induction false} SameTokens(a: Expr, b: Expr, x: nat, y: nat, j: Tokens, k: Tokens)
    requires Strip(a) == Strip(b) && TuplesOk(a) && TuplesOk(b)
    requires Opens(x, Yield(a, j)) == Opens(y, Yield(b, k))
    ensures Shared(a, b, x, y, j, k)
    decreases a, 1
  {
    hide Yield, Strip, TuplesOk;
    CoreFacts(a, j);
    CoreFacts(b, k);
    var m, n := Outer(a), Outer(b);
    OpensAdd(x, m, Yield(Core(a), Closes(m, j)));
    OpensAdd(y, n, Yield(Core(b), Closes(n, k)));
    SameCores(Core(a), Core(b), x + m, y + n, Closes(m, j), Closes(n, k));
    Regrouped(a, b, x, y, j, k);
  }

  lemma Regrouped(a: Expr, b: Expr, x: nat, y: nat, j: Tokens, k: Tokens)
    requires a == Grouped(Outer(a), Core(a)) && b == Grouped(Outer(b), Core(b)) && Core(a) == Core(b)
    requires x + Outer(a) == y + Outer(b) && Closes(Outer(a), j) == Closes(Outer(b), k)
    ensures Shared(a, b, x, y, j, k)
  {
    if x >= y {
      ClosesShared(Outer(b), Outer(a), k, j);
      GroupedAdd(x - y, Outer(a), Core(a));
    } else {
      ClosesShared(Outer(a), Outer(b), j, k);
      GroupedAdd(y - x, Outer(b), Core(b));
    }
  }

  /** Trees that are no groupings themselves: equal, after equally many parentheses. */
  lemma {:induction false} SameCores(a: Expr, b: Expr, x: nat, y: nat, j: Tokens, k: Tokens)
    requires !a.Grouping? && !b.Grouping? && Strip(a) == Strip(b) && TuplesOk(a) && TuplesOk(b)
    requires Opens(x, Yield(a, j)) == Opens(y, Yield(b, k))
    ensures a == b && x == y && j == k
    decreases a, 0
  {
    match a
    case ScopedName(_) => OpensCounted(x, y, Yield(a, j), Yield(b, k));
    case Lit(l) => SameLiterals(l, x, y, j, k);
    case Tuple(items) =>
      var p, q := Tok(RParen, j), Tok(RParen, k);
      OpensAdd(x, 1, YieldItems(items, p));
      OpensAdd(y, 1, YieldItems(b.items, q));
      StrippedItems(a, b);
      SameItems(a, items, b.items, x + 1, y + 1, p, q);
    case Call(callee, args) =>
      var p, q := Tok(LParen, YieldItems(args, Tok(RParen, j))), Tok(LParen, YieldItems(b.args, Tok(RParen, k)));
      SameTokens(callee, b.callee, x, y, p, q);
      SharedEqual(callee, b.callee, x, y, p, q);
      StrippedArgs(a, b);
      SameItems(a, args, b.args, 0, 0, Tok(RParen, j), Tok(RParen, k));
    case FieldAccess(target, field) =>
      var p, q := Tok(Dot, Tok(Name(field), j)), Tok(Dot, Tok(Name(b.field), k));
      SameTokens(target, b.target, x, y, p, q);
      SharedEqual(target, b.target, x, y, p, q);
    case Unary(op, operand) =>
      OpensCounted(x, y, Yield(a, j), Yield(b, k));
      SameTokens(operand, b.operand, 0, 0, j, k);
    case Binary(op, l, r) =>
      var p, q := Tok(Op(op), Yield(r, j)), Tok(Op(b.bop), Yield(b.right, k));
      SameTokens(l, b.left, x, y, p, q);
      SharedEqual(l, b.left, x, y, p, q);
      SameTokens(r, b.right, 0, 0, j, k);
  }

  lemma SameLiterals(l: Literal, x: nat, y: nat, j: Tokens, k: Tokens)
    requires Opens(x, LiteralOnto(l, j)) == Opens(y, LiteralOnto(l, k))
    ensures x == y && j == k
  {
    if l.Unit? {
      OpensAdd(x, 1, Tok(RParen, j));
      OpensAdd(y, 1, Tok(RParen, k));
      OpensCounted(x + 1, y + 1, Tok(RParen, j), Tok(RParen, k));
    } else {
      OpensCounted(x, y, LiteralOnto(l, j), LiteralOnto(l, k));
    }
  }

  lemma StrippedItems(a: Expr, b: Expr)
    requires a.Tuple? && b.Tuple? && Strip(a) == Strip(b)
    ensures |a.items| == |b.items| && forall i :: 0 <= i < |a.items| ==> Strip(a.items[i]) == Strip(b.items[i])
  {
    forall i | 0 <= i < |a.items| && i < |b.items|
      ensures Strip(a.items[i]) == Strip(b.items[i])
    {
      assert Strip(a).items[i] == Strip(b).items[i];
    }
    assert |Strip(a).items| == |Strip(b).items|;
  }

  lemma StrippedArgs(a: Expr, b: Expr)
    requires a.Call? && b.Call? && Strip(a) == Strip(b)
    ensures |a.args| == |b.args| && forall i :: 0 <= i < |a.args| ==> Strip(a.args[i]) == Strip(b.args[i])
  {
    forall i | 0 <= i < |a.args| && i < |b.args|
      ensures Strip(a.args[i]) == Strip(b.args[i])
    {
      assert Strip(a).args[i] == Strip(b).args[i];
    }
    assert |Strip(a).args| == |Strip(b).args|;
  }

  /** Items up to a closing parenthesis. Only the first one has parentheses before it
      that are not known to be the same number, and only if another item follows. */
  lemma {:induction false} SameItems(whole: Expr, as0: seq<Expr>, bs: seq<Expr>, x: nat, y: nat, j: Tokens, k: Tokens)
    requires |as0| == |bs| && (|as0| < 2 ==> x == y)
    requires forall i :: 0 <= i < |as0| ==> as0[i] < whole && Strip(as0[i]) == Strip(bs[i]) && TuplesOk(as0[i]) && TuplesOk(bs[i])
    requires Opens(x, YieldItems(as0, j)) == Opens(y, YieldItems(bs, k))
    ensures as0 == bs && x == y && j == k
    decreases whole, 0, |as0|
  {
    hide Yield, Strip, TuplesOk;
    if as0 == [] {
      SameOpens(x, j, k);
    } else if |as0| == 1 {
      SameTokens(as0[0], bs[0], x, y, j, k);
      assert as0 == [as0[0]] && bs == [bs[0]];
    } else {
      var p, q := Tok(Comma, YieldItems(as0[1..], j)), Tok(Comma, YieldItems(bs[1..], k));
      SameTokens(as0[0], bs[0], x, y, p, q);
      SharedEqual(as0[0], bs[0], x, y, p, q);
      SameItems(whole, as0[1..], bs[1..], 0, 0, j, k);
      assert as0 == [as0[0]] + as0[1..] && bs == [bs[0]] + bs[1..];
    }
  }

  lemma {:induction false} SameOpens(x: nat, j: Tokens, k: Tokens)
    requires Opens(x, j) == Opens(x, k)
    ensures j == k
    decreases x
  {
    if x > 0 {
      SameOpens(x - 1, j, k);
    }
  }

  /** Trees with the same tokens that differ in groupings only do not differ. */
  lemma TokensDetermine(a: Expr, b: Expr)
    requires Strip(a) == Strip(b) && TuplesOk(a) && TuplesOk(b) && Yield(a, End) == Yield(b, End)
    ensures a == b
  {
    SameTokens(a, b, 0, 0, End, End);
  }

  // ---- Printed tokens have no trailing commas.

  lemma {:induction false} NoTrailing(e: Expr, k: Tokens)
    ensures WithoutTrailing(Yield(e, k)) == Yield(e, WithoutTrailing(k))
    decreases e, 0
  {
    match e
    case Grouping(inner) => NoTrailing(inner, Tok(RParen, k));
    case Tuple(items) => ItemsNoTrailing(items, Tok(RParen, k));
    case Call(callee, args) =>
      ItemsNoTrailing(args, Tok(RParen, k));
      NoTrailing(callee, Tok(LParen, YieldItems(args, Tok(RParen, k))));
    case FieldAccess(target, field) => NoTrailing(target, Tok(Dot, Tok(Name(field), k)));
    case Unary(_, operand) => NoTrailing(operand, k);
    case Binary(op, l, r) =>
      NoTrailing(r, k);
      NoTrailing(l, Tok(Op(op), Yield(r, k)));
    case _ =>
  }

  lemma {:induction false} ItemsNoTrailing(items: seq<Expr>, k: Tokens)
    ensures WithoutTrailing(YieldItems(items, k)) == YieldItems(items, WithoutTrailing(k))
    decreases items, 1
  {
    if |items| == 1 {
      NoTrailing(items[0], k);
    } else if |items| > 1 {
      ItemsNoTrailing(items[1..], k);
      FirstNotClosing(items[1..], k);
      NoTrailing(items[0], Tok(Comma, YieldItems(items[1..], k)));
    }
  }

  lemma FirstNotClosing(items: seq<Expr>, k: Tokens)
    requires items != []
    ensures YieldItems(items, k).Tok? && YieldItems(items, k).t != RParen
  {
    NotClosing(items[0], if |items| == 1 then k else Tok(Comma, YieldItems(items[1..], k)));
  }

  // ---- The exact condition.

  lemma {:induction false} DerivableTuples(e: Expr)
    requires Derivable(e)
    ensures TuplesOk(e)
    decreases e
  {
    match e
    case Grouping(inner) => DerivableTuples(inner);
    case Tuple(items) =>
      forall i | 0 <= i < |items|
        ensures TuplesOk(items[i])
      {
        DerivableTuples(items[i]);
      }
    case Call(callee, args) =>
      DerivableTuples(callee);
      forall i | 0 <= i < |args|
        ensures TuplesOk(args[i])
      {
        DerivableTuples(args[i]);
      }
    case FieldAccess(target, _) => DerivableTuples(target);
    case Unary(_, operand) => DerivableTuples(operand);
    case Binary(_, l, r) =>
      DerivableTuples(l);
      DerivableTuples(r);
    case _ =>
  }

  lemma {:induction false} ExplicitTuples(e: Expr, parentPrec: nat, position: Position)
    requires TuplesOk(e)
    ensures TuplesOk(Explicit(e, parentPrec, position))
    decreases e
  {
    match e
    case Grouping(inner) => ExplicitTuples(inner, PREC_LOWEST, Top);
    case Tuple(items) =>
      forall i | 0 <= i < |items|
        ensures TuplesOk(Explicit(items[i], PREC_LOWEST, Top))
      {
        ExplicitTuples(items[i], PREC_LOWEST, Top);
      }
    case Call(callee, args) =>
      ExplicitTuples(callee, PREC_FIELD_ACCESS, Left);
      forall i | 0 <= i < |args|
        ensures TuplesOk(Explicit(args[i], PREC_LOWEST, Top))
      {
        ExplicitTuples(args[i], PREC_LOWEST, Top);
      }
    case FieldAccess(target, _) => ExplicitTuples(target, PREC_PRIMARY, Top);
    case Unary(_, operand) => ExplicitTuples(operand, PREC_UNARY, UnaryOperand);
    case Binary(op, l, r) =>
      ExplicitTuples(l, PrecedenceBinary(op), Left);
      ExplicitTuples(r, PrecedenceBinary(op), Right);
    case _ =>
  }

  /** The explicit tree is derivable only if every field access has a postfix target. */
  lemma {:induction false} DerivableOnlyIf(e: Expr, parentPrec: nat, position: Position)
    requires TuplesOk(e) && Derivable(Explicit(e, parentPrec, position))
    ensures WellFormed(e)
    decreases e
  {
    match e
    case Grouping(inner) => DerivableOnlyIf(inner, PREC_LOWEST, Top);
    case Tuple(items) =>
      assert AllDerivable(ExplicitParts(e).items);
      forall i | 0 <= i < |items|
        ensures WellFormed(items[i])
      {
        assert ExplicitParts(e).items[i] == Explicit(items[i], PREC_LOWEST, Top);
        assert Derivable(ExplicitParts(e).items[i]);
        DerivableOnlyIf(items[i], PREC_LOWEST, Top);
      }
    case Call(callee, args) =>
      DerivableOnlyIf(callee, PREC_FIELD_ACCESS, Left);
      assert AllDerivable(ExplicitParts(e).args);
      forall i | 0 <= i < |args|
        ensures WellFormed(args[i])
      {
        assert ExplicitParts(e).args[i] == Explicit(args[i], PREC_LOWEST, Top);
        assert Derivable(ExplicitParts(e).args[i]);
        DerivableOnlyIf(args[i], PREC_LOWEST, Top);
      }
    case FieldAccess(target, _) =>
      DerivableOnlyIf(target, PREC_PRIMARY, Top);
      TopLevel(target);
    case Unary(_, operand) => DerivableOnlyIf(operand, PREC_UNARY, UnaryOperand);
    case Binary(op, l, r) =>
      DerivableOnlyIf(l, PrecedenceBinary(op), Left);
      DerivableOnlyIf(r, PrecedenceBinary(op), Right);
    case _ =>
  }

  lemma TopLevel(e: Expr)
    ensures Level(Explicit(e, PREC_PRIMARY, Top)) == Level(e)
  {
  }

  /** A tree whose tuples have at least two items survives printing and parsing, up to
      groupings, if and only if every field access in it has a postfix target. */
  lemma SurvivesExactlyWhen(e: Expr)
    requires TuplesOk(e)
    ensures Parse(Print(e)).Some? && Strip(Parse(Print(e)).value) == Strip(e) <==> WellFormed(e)
  {
    hide Parse, WellFormed, Derivable, Yield, Strip, Explicit, WithoutTrailing, TuplesOk;
    if WellFormed(e) {
      PrintThenParse(e);
    }
    if Parse(Print(e)).Some? && Strip(Parse(Print(e)).value) == Strip(e) {
      var t, g := Parse(Print(e)).value, Explicit(e, PREC_LOWEST, Top);
      ParsedIsDerivable(Print(e));
      PrintsExplicit(e, PREC_LOWEST, Top, End);
      NoTrailing(g, End);
      EndHasNone();
      ExplicitStrips(e, PREC_LOWEST, Top);
      ExplicitTuples(e, PREC_LOWEST, Top);
      DerivableTuples(t);
      TokensDetermine(t, g);
      DerivableOnlyIf(e, PREC_LOWEST, Top);
    }
  }

  /** One that does not: a field of a negated expression is printed as the negation of a
      field, and parsed as that. */
  lemma NegatedTarget(op: UnaryOp, x: string, field: string)
    ensures var e, other := FieldAccess(Unary(op, ScopedName(x)), field), Unary(op, FieldAccess(ScopedName(x), field));
            && TuplesOk(e) && !WellFormed(e) && Print(e) == Print(other)
            && Parse(Print(e)).Some? && Strip(Parse(Print(e)).value) == other != Strip(e)
  {
    hide Parse, Print, Strip, WellFormed, TuplesOk;
    NegatedShapes(op, x, field);
    NegatedPrints(op, x, field);
    PrintThenParse(Unary(op, FieldAccess(ScopedName(x), field)));
  }

  lemma NegatedShapes(op: UnaryOp, x: string, field: string)
    ensures var e, other := FieldAccess(Unary(op, ScopedName(x)), field), Unary(op, FieldAccess(ScopedName(x), field));
            TuplesOk(e) && !WellFormed(e) && WellFormed(other) && Strip(e) == e && Strip(other) == other
  {
    var name := ScopedName(x);
    assert Strip(name) == name && WellFormed(name) && TuplesOk(name);
    assert Strip(Unary(op, name)) == Unary(op, name) && TuplesOk(Unary(op, name));
    assert Strip(FieldAccess(name, field)) == FieldAccess(name, field) && WellFormed(FieldAccess(name, field));
  }

  lemma NegatedPrints(op: UnaryOp, x: string, field: string)
    ensures Print(FieldAccess(Unary(op, ScopedName(x)), field)) == Print(Unary(op, FieldAccess(ScopedName(x), field)))
  {
    var name := ScopedName(x);
    var k := Tok(Dot, Tok(Name(field), End));
    assert ExprWithPrec(name, PREC_UNARY, UnaryOperand, k) == ExprWithPrec(name, PREC_PRIMARY, Top, k) == Tok(Name(x), k);
    assert ExprWithPrec(Unary(op, name), PREC_PRIMARY, Top, k) == Tok(UnaryToken(op), Tok(Name(x), k));
    assert ExprWithPrec(FieldAccess(name, field), PREC_UNARY, UnaryOperand, End) == Tok(Name(x), k);
    var e, other := FieldAccess(Unary(op, name), field), Unary(op, FieldAccess(name, field));
    assert Print(e) == Bare(e, End) == Tok(UnaryToken(op), Tok(Name(x), k));
    assert Print(other) == Bare(other, End) == Tok(UnaryToken(op), Tok(Name(x), k));
  }

  lemma EndHasNone()
    ensures WithoutTrailing(End) == End
  {
  }
}

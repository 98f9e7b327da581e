/** How tightly operators bind, from the list of their classes alone. */
module Precedence {
  import opened Options
  import opened Grammar
  import opened Printer

  /** The binary operators, from those that bind loosest to those that bind tightest. */
  const CLASSES: seq<set<BinaryOp>> :=
    [{Or}, {And}, {Equal, NotEqual}, {Less, LessEqual, Greater, GreaterEqual}, {Add, Subtract}, {Multiply, Divide, Remainder}]

  predicate BindsTighter(q: BinaryOp, p: BinaryOp) {
    exists i, j :: 0 <= i < j < |CLASSES| && p in CLASSES[i] && q in CLASSES[j]
  }

  /** Each operator is in one class, and its level counts the classes up to it. */
  lemma ClassIsLevel(op: BinaryOp)
    ensures 1 <= TablePrec(op) <= |CLASSES|
    ensures forall i :: 0 <= i < |CLASSES| ==> (op in CLASSES[i] <==> i == TablePrec(op) - 1)
  {
    forall i | 0 <= i < |CLASSES|
      ensures op in CLASSES[i] <==> i == TablePrec(op) - 1
    {
      if i == 0 {
      } else if i == 1 {
      } else if i == 2 {
      } else if i == 3 {
      } else if i == 4 {
      } else {
        assert i == 5;
      }
    }
  }

  lemma TighterIsHigher(q: BinaryOp, p: BinaryOp)
    ensures BindsTighter(q, p) <==> TablePrec(q) > TablePrec(p)
  {
    hide TablePrec;
    ClassIsLevel(p);
    ClassIsLevel(q);
    if TablePrec(q) > TablePrec(p) {
      assert p in CLASSES[TablePrec(p) - 1] && q in CLASSES[TablePrec(q) - 1];
    }
  }

  // ---- Parsing.

  /** What stands between binary operators: anything else that the grammar derives. */
  predicate Operand(e: Expr) {
    Derivable(e) && !e.Binary?
  }

  /** `a p b q c`: the right operator takes b exactly if it binds tighter. */
  function Grouped(a: Expr, p: BinaryOp, b: Expr, q: BinaryOp, c: Expr): Expr {
    if BindsTighter(q, p) then Binary(p, a, Binary(q, b, c)) else Binary(q, Binary(p, a, b), c)
  }

  lemma OperandsParse(a: Expr, p: BinaryOp, b: Expr, q: BinaryOp, c: Expr)
    requires Operand(a) && Operand(b) && Operand(c)
    ensures Parse(Yield(a, Tok(Op(p), Yield(b, Tok(Op(q), Yield(c, End)))))) == Some(Grouped(a, p, b, q, c))
  {
    hide BindsTighter, Parse, Derivable, Yield;
    TighterIsHigher(q, p);
    GroupedDerivable(a, p, b, q, c);
    GroupedYields(a, p, b, q, c);
    YieldIsParsed(Grouped(a, p, b, q, c));
  }

  lemma GroupedDerivable(a: Expr, p: BinaryOp, b: Expr, q: BinaryOp, c: Expr)
    requires Operand(a) && Operand(b) && Operand(c) && (BindsTighter(q, p) <==> TablePrec(q) > TablePrec(p))
    ensures Derivable(Grouped(a, p, b, q, c))
  {
    hide BindsTighter;
    ClassIsLevel(p);
    ClassIsLevel(q);
    hide TablePrec;
    OperandLevel(a);
    OperandLevel(b);
    OperandLevel(c);
    assert Derivable(if BindsTighter(q, p) then Binary(q, b, c) else Binary(p, a, b));
  }

  lemma OperandLevel(e: Expr)
    requires Operand(e)
    ensures Derivable(e) && Level(e) > |CLASSES|
  {
  }

  lemma GroupedYields(a: Expr, p: BinaryOp, b: Expr, q: BinaryOp, c: Expr)
    ensures Yield(Grouped(a, p, b, q, c), End) == Yield(a, Tok(Op(p), Yield(b, Tok(Op(q), Yield(c, End)))))
  {
    hide BindsTighter;
    assert Yield(Binary(q, b, c), End) == Yield(b, Tok(Op(q), Yield(c, End)));
    assert Yield(Binary(p, a, b), Tok(Op(q), Yield(c, End))) == Yield(a, Tok(Op(p), Yield(b, Tok(Op(q), Yield(c, End)))));
  }

  /** The same on names, token by token. */
  lemma ChainParses(a: string, p: BinaryOp, b: string, q: BinaryOp, c: string)
    ensures Parse(Tok(Name(a), Tok(Op(p), Tok(Name(b), Tok(Op(q), Tok(Name(c), End))))))
         == Some(Grouped(ScopedName(a), p, ScopedName(b), q, ScopedName(c)))
  {
    hide Parse, Grouped;
    OperandsParse(ScopedName(a), p, ScopedName(b), q, ScopedName(c));
  }

  /** A prefix operator, `!` or `-`, takes less than any binary one, on either side. */
  lemma PrefixParses(op: UnaryOp, a: string, q: BinaryOp, b: string)
    ensures var sign := if op == Not then Bang else Op(Subtract);
            && Parse(Tok(sign, Tok(Name(a), Tok(Op(q), Tok(Name(b), End)))))
               == Some(Binary(q, Unary(op, ScopedName(a)), ScopedName(b)))
            && Parse(Tok(Name(a), Tok(Op(q), Tok(sign, Tok(Name(b), End)))))
               == Some(Binary(q, ScopedName(a), Unary(op, ScopedName(b))))
  {
    ClassIsLevel(q);
    hide TablePrec, Parse;
    var x, y := ScopedName(a), ScopedName(b);
    var left, right := Binary(q, Unary(op, x), y), Binary(q, x, Unary(op, y));
    assert Derivable(Unary(op, x)) && Derivable(Unary(op, y));
    assert Derivable(left) && Derivable(right);
    YieldIsParsed(left);
    YieldIsParsed(right);
    var sign := if op == Not then Bang else Op(Subtract);
    assert Yield(Unary(op, x), Tok(Op(q), Tok(Name(b), End))) == Tok(sign, Tok(Name(a), Tok(Op(q), Tok(Name(b), End))));
    assert Yield(Unary(op, y), End) == Tok(sign, Tok(Name(b), End));
  }

  /** And fields and calls are taken before it. */
  lemma SuffixParses(op: UnaryOp, a: string, field: string, b: string)
    ensures var sign := if op == Not then Bang else Op(Subtract);
            && Parse(Tok(sign, Tok(Name(a), Tok(Dot, Tok(Name(field), End)))))
               == Some(Unary(op, FieldAccess(ScopedName(a), field)))
            && Parse(Tok(sign, Tok(Name(a), Tok(LParen, Tok(Name(b), Tok(RParen, End))))))
               == Some(Unary(op, Call(ScopedName(a), [ScopedName(b)])))
  {
    hide Parse;
    var x, y := ScopedName(a), ScopedName(b);
    var fieldOf, call := Unary(op, FieldAccess(x, field)), Unary(op, Call(x, [y]));
    assert AllDerivable([y]) && Derivable(fieldOf.operand) && Derivable(call.operand);
    YieldIsParsed(fieldOf);
    YieldIsParsed(call);
    assert YieldItems([y], Tok(RParen, End)) == Tok(Name(b), Tok(RParen, End));
    assert Yield(fieldOf.operand, End) == Tok(Name(a), Tok(Dot, Tok(Name(field), End)));
    assert Yield(call.operand, End) == Tok(Name(a), Tok(LParen, Tok(Name(b), Tok(RParen, End))));
  }

  /** What brackets mean: nothing, a grouping, a tuple, or arguments. */
  lemma BracketsParse(f: string, a: string, b: string)
    ensures Parse(Tok(LParen, Tok(RParen, End))) == Some(Lit(Unit))
    ensures Parse(Tok(LParen, Tok(Name(a), Tok(RParen, End)))) == Some(Grouping(ScopedName(a)))
    ensures Parse(Tok(LParen, Tok(Name(a), Tok(Comma, Tok(Name(b), Tok(RParen, End))))))
         == Some(Tuple([ScopedName(a), ScopedName(b)]))
    ensures Parse(Tok(Name(f), Tok(LParen, Tok(Name(a), Tok(Comma, Tok(Name(b), Tok(RParen, End)))))))
         == Some(Call(ScopedName(f), [ScopedName(a), ScopedName(b)]))
  {
    hide Parse;
    var x, y := ScopedName(a), ScopedName(b);
    var items := [x, y];
    assert AllDerivable(items) && items[1..] == [y];
    assert YieldItems([y], Tok(RParen, End)) == Tok(Name(b), Tok(RParen, End));
    assert YieldItems(items, Tok(RParen, End)) == Tok(Name(a), Tok(Comma, Tok(Name(b), Tok(RParen, End))));
    YieldIsParsed(Lit(Unit));
    YieldIsParsed(Grouping(x));
    YieldIsParsed(Tuple(items));
    YieldIsParsed(Call(ScopedName(f), items));
  }

  // ---- Printing.

  /** Names are printed with the parentheses that the classes demand, and no others. */
  lemma ChainPrints(a: string, p: BinaryOp, b: string, q: BinaryOp, c: string)
    ensures var x, y, z := ScopedName(a), ScopedName(b), ScopedName(c);
            && Print(Binary(q, Binary(p, x, y), z))
               == (if BindsTighter(q, p)
                   then Tok(LParen, Tok(Name(a), Tok(Op(p), Tok(Name(b), Tok(RParen, Tok(Op(q), Tok(Name(c), End)))))))
                   else Tok(Name(a), Tok(Op(p), Tok(Name(b), Tok(Op(q), Tok(Name(c), End))))))
            && Print(Binary(p, x, Binary(q, y, z)))
               == (if BindsTighter(q, p)
                   then Tok(Name(a), Tok(Op(p), Tok(Name(b), Tok(Op(q), Tok(Name(c), End)))))
                   else Tok(Name(a), Tok(Op(p), Tok(LParen, Tok(Name(b), Tok(Op(q), Tok(Name(c), Tok(RParen, End))))))))
  {
    hide BindsTighter;
    TighterIsHigher(q, p);
    SameLevels(p);
    SameLevels(q);
    LeftPrints(a, p, b, q, c);
    RightPrints(a, p, b, q, c);
  }

  lemma SameLevels(op: BinaryOp)
    ensures PrecedenceBinary(op) == TablePrec(op) < PREC_PRIMARY
  {
  }

  lemma PairPrints(a: string, p: BinaryOp, b: string, k: Tokens)
    ensures Bare(Binary(p, ScopedName(a), ScopedName(b)), k) == Tok(Name(a), Tok(Op(p), Tok(Name(b), k)))
  {
    SameLevels(p);
    hide PrecedenceBinary;
    var n := PrecedenceBinary(p);
    assert ExprWithPrec(ScopedName(b), n, Right, k) == Tok(Name(b), k);
    assert ExprWithPrec(ScopedName(a), n, Left, Tok(Op(p), Tok(Name(b), k))) == Tok(Name(a), Tok(Op(p), Tok(Name(b), k)));
  }

  lemma LeftPrints(a: string, p: BinaryOp, b: string, q: BinaryOp, c: string)
    ensures Print(Binary(q, Binary(p, ScopedName(a), ScopedName(b)), ScopedName(c)))
         == if PrecedenceBinary(p) < PrecedenceBinary(q)
            then Tok(LParen, Tok(Name(a), Tok(Op(p), Tok(Name(b), Tok(RParen, Tok(Op(q), Tok(Name(c), End)))))))
            else Tok(Name(a), Tok(Op(p), Tok(Name(b), Tok(Op(q), Tok(Name(c), End)))))
  {
    SameLevels(q);
    hide PrecedenceBinary;
    var x, n, k := Binary(p, ScopedName(a), ScopedName(b)), PrecedenceBinary(q), Tok(Op(q), Tok(Name(c), End));
    PairPrints(a, p, b, k);
    PairPrints(a, p, b, Tok(RParen, k));
    assert ExprWithPrec(ScopedName(c), n, Right, End) == Tok(Name(c), End);
    assert Print(Binary(q, x, ScopedName(c))) == Bare(Binary(q, x, ScopedName(c)), End) == ExprWithPrec(x, n, Left, k);
  }

  lemma RightPrints(a: string, p: BinaryOp, b: string, q: BinaryOp, c: string)
    ensures Print(Binary(p, ScopedName(a), Binary(q, ScopedName(b), ScopedName(c))))
         == if PrecedenceBinary(q) > PrecedenceBinary(p)
            then Tok(Name(a), Tok(Op(p), Tok(Name(b), Tok(Op(q), Tok(Name(c), End)))))
            else Tok(Name(a), Tok(Op(p), Tok(LParen, Tok(Name(b), Tok(Op(q), Tok(Name(c), Tok(RParen, End)))))))
  {
    SameLevels(p);
    hide PrecedenceBinary;
    var x, y, n := ScopedName(a), Binary(q, ScopedName(b), ScopedName(c)), PrecedenceBinary(p);
    PairPrints(b, q, c, End);
    PairPrints(b, q, c, Tok(RParen, End));
    var k := Tok(Op(p), ExprWithPrec(y, n, Right, End));
    assert ExprWithPrec(x, n, Left, k) == Tok(Name(a), k);
    assert Print(Binary(p, x, y)) == Bare(Binary(p, x, y), End) == ExprWithPrec(x, n, Left, k);
  }
}

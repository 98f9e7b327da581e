/** The overflow-checked 64-bit operations that the compiler generates
    (`intrinsics.rs`), and their exactness. */
module Intrinsics {
  import opened Wasm
  import opened IntMachine

  datatype Arith = Add | Sub | Mul

  function Exact(op: Arith, x: int, y: int): int {
    match op
    case Add => x + y
    case Sub => x - y
    case Mul => x * y
  }

  // ---- The generated bodies.

  const I64_MIN: int := -0x8000_0000_0000_0000

  /** Locals: 0 and 1 are the parameters, 2 the sum. */
  const ADD_CHECKED: seq<Op> :=
    [Get(0), Get(1), Add64, Tee(2),
     Get(0), Get(1), Xor64, Const64(0), GeS64,
     Get(2), Get(0), Xor64, Const64(0), LtS64,
     And32, Const32(0), Ne32, If([Unreachable])]

  const SUB_CHECKED: seq<Op> :=
    [Get(0), Get(1), Sub64, Tee(2),
     Get(0), Get(1), Xor64, Const64(0), LtS64,
     Get(2), Get(0), Xor64, Const64(0), LtS64,
     And32, Const32(0), Ne32, If([Unreachable])]

  /** Locals 3 and 4 hold the operands again, 2 the product. */
  const MUL_CHECKED: seq<Op> :=
    [Get(0), Tee(3), Get(1), Tee(4), Mul64, Tee(2),
     Get(3), Const64(I64_MIN), Eq64, Get(4), Const64(-1), Eq64, And32,
     Get(4), Const64(I64_MIN), Eq64, Get(3), Const64(-1), Eq64, And32,
     Or32, If([Unreachable]),
     Get(4), Const64(0), Ne64, If(DIVIDE_BACK)]

  const DIVIDE_BACK: seq<Op> := [Get(2), Get(4), DivS64, Get(3), Ne64, If([Unreachable])]

  function Body(op: Arith): Fn {
    match op
    case Add => Fn(1, ADD_CHECKED)
    case Sub => Fn(1, SUB_CHECKED)
    case Mul => Fn(3, MUL_CHECKED)
  }

  predicate Is64(s: Slot) { s.W64? && s.bits < TWO64 }

  /** The call leaves the exact result if it is a signed 64-bit number, and otherwise
      stops at an `unreachable`. */
  predicate Checks(r: Outcome, n: int) {
    if InI64(n) then r.Done? && r.stack == Cons(Int64(n), Nil) else r == Traps(Reached)
  }

  // ---- Signs.

  predicate Negative(s: Slot) { S64(s) < 0 }

  lemma SignOfXor(a: Slot, b: Slot)
    requires Is64(a) && Is64(b)
    ensures Is64(W64(XorBits(a.bits, b.bits, 64)))
    ensures Negative(W64(XorBits(a.bits, b.bits, 64))) <==> (Negative(a) != Negative(b))
  {
    Pow2Values();
    XorSign(a.bits, b.bits, 64);
  }

  lemma Wraps(n: int)
    ensures Is64(Int64(n)) && InI64(S64(Int64(n)))
    ensures InI64(n) ==> S64(Int64(n)) == n
    ensures TWO64 / 2 <= n < 3 * (TWO64 / 2) ==> S64(Int64(n)) == n - TWO64
    ensures -3 * (TWO64 / 2) <= n < -(TWO64 / 2) ==> S64(Int64(n)) == n + TWO64
  {
  }

  lemma SignedIsBits(s: Slot)
    requires Is64(s)
    ensures InI64(S64(s)) && Int64(S64(s)) == s
  {
  }

  /** Wrapping arithmetic on patterns is wrapping arithmetic on the signed numbers. */
  lemma WrapsExact(op: Arith, a: Slot, b: Slot)
    requires Is64(a) && Is64(b)
    ensures Int64(Exact(op, a.bits, b.bits)) == Int64(Exact(op, S64(a), S64(b)))
  {
    SignedIsBits(a);
    SignedIsBits(b);
    var x, y := S64(a), S64(b);
    match op
    case Add => AddMod(x, y, TWO64);
    case Sub => SubMod(x, y, TWO64);
    case Mul => MulMod(x, y, TWO64);
  }

  // ---- Addition and subtraction.

  /** One operand's sign against another value's: the flag that five instructions push. */
  lemma SignTest(code: seq<Op>, pc: nat, i: nat, j: nat, ge: bool, stack: Stack, locals: seq<Slot>, funcs: seq<Fn>)
    requires pc + 5 <= |code| && i < |locals| && j < |locals| && Is64(locals[i]) && Is64(locals[j])
    requires code[pc] == Get(i) && code[pc + 1] == Get(j) && code[pc + 2] == Xor64 && code[pc + 3] == Const64(0)
    requires code[pc + 4] == if ge then GeS64 else LtS64
    ensures Run(0, code, pc, stack, locals, funcs)
         == Run(0, code, pc + 5, Cons(Truth((Negative(locals[i]) != Negative(locals[j])) != ge), stack), locals, funcs)
  {
    hide *;
    var a, b := locals[i], locals[j];
    var x := W64(XorBits(a.bits, b.bits, 64));
    SignOfXor(a, b);
    SignFlags(a, b, x);
    AtGet(0, code, pc, i, stack, locals, funcs);
    AtGet(0, code, pc + 1, j, Cons(a, stack), locals, funcs);
    Applied64(a, b);
    AtOp(0, code, pc + 2, a, b, x, stack, locals, funcs);
    AtConst64(0, code, pc + 3, 0, Cons(x, stack), locals, funcs);
    AtOp(0, code, pc + 4, x, Int64(0), Truth((Negative(a) != Negative(b)) != ge), stack, locals, funcs);
  }

  lemma SignFlags(a: Slot, b: Slot, x: Slot)
    requires Is64(a) && Is64(b) && Is64(x) && (Negative(x) <==> (Negative(a) != Negative(b)))
    ensures a.W64? && b.W64?
    ensures Apply(LtS64, x, Int64(0)) == Value(Truth(Negative(a) != Negative(b)))
    ensures Apply(GeS64, x, Int64(0)) == Value(Truth(!(Negative(a) != Negative(b))))
  {
    Applied64(x, Int64(0));
  }

  /** The two flags' conjunction decides the trap. */
  lemma TrapIf(code: seq<Op>, pc: nat, a: bool, b: bool, stack: Stack, locals: seq<Slot>, funcs: seq<Fn>)
    requires pc + 4 == |code| && code[pc] == And32 && code[pc + 1] == Const32(0)
    requires code[pc + 2] == Ne32 && code[pc + 3] == If([Unreachable])
    ensures Run(0, code, pc, Cons(Truth(b), Cons(Truth(a), stack)), locals, funcs)
         == if a && b then Traps(Reached) else Done(stack, locals)
  {
    hide *;
    AppliedFlags(a, b);
    AppliedFlags(a && b, false);
    AtOp(0, code, pc, Truth(a), Truth(b), Truth(a && b), stack, locals, funcs);
    AtConst32(0, code, pc + 1, 0, Cons(Truth(a && b), stack), locals, funcs);
    AtOp(0, code, pc + 2, Truth(a && b), Int32(0), Truth(a && b), stack, locals, funcs);
    AtUnreachable(0, stack, locals, funcs);
    AtIf(0, code, pc + 3, [Unreachable], a && b, stack, locals, funcs);
    AtEnd(0, code, stack, locals, funcs);
  }

  lemma AddFlags(x: int, y: int, s: int)
    requires InI64(x) && InI64(y) && s == S64(Int64(x + y))
    ensures ((x < 0) == (y < 0) && (s < 0) != (x < 0)) <==> !InI64(x + y)
  {
    Wraps(x + y);
  }

  lemma SubFlags(x: int, y: int, d: int)
    requires InI64(x) && InI64(y) && d == S64(Int64(x - y))
    ensures ((x < 0) != (y < 0) && (d < 0) != (x < 0)) <==> !InI64(x - y)
  {
    Wraps(x - y);
  }

  /** The first four instructions of a sum or difference. */
  lemma Computed(op: Arith, x: Slot, y: Slot, funcs: seq<Fn>)
    requires Is64(x) && Is64(y) && !op.Mul?
    ensures var r := Int64(Exact(op, S64(x), S64(y)));
            Run(0, Body(op).body, 0, Nil, [x, y, W64(0)], funcs)
            == Run(0, Body(op).body, 4, Cons(r, Nil), [x, y, r], funcs)
  {
    hide *;
    var r := Int64(Exact(op, S64(x), S64(y)));
    var code, locals := Body(op).body, [x, y, W64(0)];
    AddSubCode(op);
    FirstOp(op, x, y);
    AtGet(0, code, 0, 0, Nil, locals, funcs);
    AtGet(0, code, 1, 1, Cons(x, Nil), locals, funcs);
    AtOp(0, code, 2, x, y, r, Nil, locals, funcs);
    AtTee(0, code, 3, 2, r, Nil, locals, funcs);
    assert locals[2 := r] == [x, y, r];
  }

  lemma FirstOp(op: Arith, x: Slot, y: Slot)
    requires Is64(x) && Is64(y) && !op.Mul?
    ensures var r := Int64(Exact(op, S64(x), S64(y)));
            SameKind(r, W64(0)) && Apply(if op.Add? then Add64 else Sub64, x, y) == Value(r)
  {
    WrapsExact(op, x, y);
    Applied64(x, y);
  }

  lemma AddSubCode(op: Arith)
    requires !op.Mul?
    ensures var code := Body(op).body;
            && |code| == 18 && code[0] == Get(0) && code[1] == Get(1) && code[2] == (if op.Add? then Add64 else Sub64)
            && code[3] == Tee(2) && code[4] == Get(0) && code[5] == Get(1) && code[6] == Xor64 && code[7] == Const64(0)
            && code[8] == (if op.Add? then GeS64 else LtS64)
            && code[9] == Get(2) && code[10] == Get(0) && code[11] == Xor64 && code[12] == Const64(0) && code[13] == LtS64
            && code[14] == And32 && code[15] == Const32(0) && code[16] == Ne32 && code[17] == If([Unreachable])
  {
    AddCode();
    SubCode();
  }

  lemma AddCode()
    ensures var code := ADD_CHECKED;
            && |code| == 18 && code[0] == Get(0) && code[1] == Get(1) && code[2] == Add64
            && code[3] == Tee(2) && code[4] == Get(0) && code[5] == Get(1) && code[6] == Xor64 && code[7] == Const64(0)
            && code[8] == GeS64
            && code[9] == Get(2) && code[10] == Get(0) && code[11] == Xor64 && code[12] == Const64(0) && code[13] == LtS64
            && code[14] == And32 && code[15] == Const32(0) && code[16] == Ne32 && code[17] == If([Unreachable])
  {
  }

  lemma SubCode()
    ensures var code := SUB_CHECKED;
            && |code| == 18 && code[0] == Get(0) && code[1] == Get(1) && code[2] == Sub64
            && code[3] == Tee(2) && code[4] == Get(0) && code[5] == Get(1) && code[6] == Xor64 && code[7] == Const64(0)
            && code[8] == LtS64
            && code[9] == Get(2) && code[10] == Get(0) && code[11] == Xor64 && code[12] == Const64(0) && code[13] == LtS64
            && code[14] == And32 && code[15] == Const32(0) && code[16] == Ne32 && code[17] == If([Unreachable])
  {
  }

  /** The generated sum and difference trap exactly when the signed result does not fit,
      and are exact otherwise. */
  lemma AddSubChecks(op: Arith, x: Slot, y: Slot, funcs: seq<Fn>)
    requires Is64(x) && Is64(y) && !op.Mul?
    ensures Checks(Run(0, Body(op).body, 0, Nil, [x, y, W64(0)], funcs), Exact(op, S64(x), S64(y)))
  {
    hide *;
    var r := Int64(Exact(op, S64(x), S64(y)));
    var code, locals := Body(op).body, [x, y, r];
    AddSubCode(op);
    Computed(op, x, y, funcs);
    Overflow(op, x, y, r);
    SignTest(code, 4, 0, 1, op.Add?, Cons(r, Nil), locals, funcs);
    var a, b := (Negative(x) != Negative(y)) != op.Add?, Negative(r) != Negative(x);
    SignTest(code, 9, 2, 0, false, Cons(Truth(a), Cons(r, Nil)), locals, funcs);
    assert b == ((Negative(r) != Negative(x)) != false);
    TrapIf(code, 14, a, b, Cons(r, Nil), locals, funcs);
    Concludes(op, x, y, r, a, b, locals);
  }

  /** The signs of operands and wrapped result show the overflow. */
  lemma Overflow(op: Arith, x: Slot, y: Slot, r: Slot)
    requires Is64(x) && Is64(y) && !op.Mul? && r == Int64(Exact(op, S64(x), S64(y)))
    ensures Is64(r)
    ensures (((Negative(x) != Negative(y)) != op.Add?) && Negative(r) != Negative(x)) <==> !InI64(Exact(op, S64(x), S64(y)))
  {
    Wraps(Exact(op, S64(x), S64(y)));
    SignedIsBits(x);
    SignedIsBits(y);
    if op.Add? {
      AddFlags(S64(x), S64(y), S64(r));
    } else {
      SubFlags(S64(x), S64(y), S64(r));
    }
  }

  lemma Concludes(op: Arith, x: Slot, y: Slot, r: Slot, a: bool, b: bool, locals: seq<Slot>)
    requires r == Int64(Exact(op, S64(x), S64(y))) && ((a && b) <==> !InI64(Exact(op, S64(x), S64(y))))
    ensures Checks(if a && b then Traps(Reached) else Done(Cons(r, Nil), locals), Exact(op, S64(x), S64(y)))
  {
  }

  // ---- Multiplication.

  /** The magnitude pair whose product overflows by one: the least number and -1. */
  predicate Special(a: Slot, b: Slot) {
    S64(a) == I64_MIN && S64(b) == -1
  }

  lemma EqualsSigned(a: Slot, n: int)
    requires Is64(a) && InI64(n)
    ensures a == Int64(n) <==> S64(a) == n
  {
    SignedIsBits(a);
    Wraps(n);
  }

  lemma SpecialTest(code: seq<Op>, pc: nat, i: nat, j: nat, stack: Stack, locals: seq<Slot>, funcs: seq<Fn>)
    requires pc + 7 <= |code| && i < |locals| && j < |locals| && Is64(locals[i]) && Is64(locals[j])
    requires code[pc] == Get(i) && code[pc + 1] == Const64(I64_MIN) && code[pc + 2] == Eq64
    requires code[pc + 3] == Get(j) && code[pc + 4] == Const64(-1) && code[pc + 5] == Eq64 && code[pc + 6] == And32
    ensures Run(0, code, pc, stack, locals, funcs)
         == Run(0, code, pc + 7, Cons(Truth(Special(locals[i], locals[j])), stack), locals, funcs)
  {
    hide *;
    var a, b := locals[i], locals[j];
    var s, t := S64(a) == I64_MIN, S64(b) == -1;
    EqualTo(a, I64_MIN);
    EqualTo(b, -1);
    AppliedFlags(s, t);
    AtGet(0, code, pc, i, stack, locals, funcs);
    AtConst64(0, code, pc + 1, I64_MIN, Cons(a, stack), locals, funcs);
    AtOp(0, code, pc + 2, a, Int64(I64_MIN), Truth(s), stack, locals, funcs);
    AtGet(0, code, pc + 3, j, Cons(Truth(s), stack), locals, funcs);
    AtConst64(0, code, pc + 4, -1, Cons(b, Cons(Truth(s), stack)), locals, funcs);
    AtOp(0, code, pc + 5, b, Int64(-1), Truth(t), Cons(Truth(s), stack), locals, funcs);
    AtOp(0, code, pc + 6, Truth(s), Truth(t), Truth(s && t), stack, locals, funcs);
    SpecialIs(a, b);
  }

  lemma SpecialIs(a: Slot, b: Slot)
    ensures Special(a, b) <==> S64(a) == I64_MIN && S64(b) == -1
  {
  }

  lemma EqualTo(a: Slot, n: int)
    requires Is64(a) && (n == I64_MIN || n == -1)
    ensures Apply(Eq64, a, Int64(n)) == Value(Truth(S64(a) == n))
  {
    EqualsSigned(a, n);
    Applied64(a, Int64(n));
  }

  lemma MulCode()
    ensures var code := MUL_CHECKED;
            && |code| == 26
            && code[0] == Get(0) && code[1] == Tee(3) && code[2] == Get(1) && code[3] == Tee(4) && code[4] == Mul64
            && code[5] == Tee(2)
  {
  }

  lemma MulCodeMiddle()
    ensures var code := MUL_CHECKED;
            && |code| == 26
            && code[6] == Get(3) && code[7] == Const64(I64_MIN) && code[8] == Eq64
            && code[9] == Get(4) && code[10] == Const64(-1) && code[11] == Eq64 && code[12] == And32
  {
  }

  lemma MulCodeEnd()
    ensures var code := MUL_CHECKED;
            && |code| == 26
            && code[13] == Get(4) && code[14] == Const64(I64_MIN) && code[15] == Eq64 && code[16] == Get(3)
            && code[17] == Const64(-1) && code[18] == Eq64 && code[19] == And32 && code[20] == Or32
            && code[21] == If([Unreachable]) && code[22] == Get(4) && code[23] == Const64(0) && code[24] == Ne64
            && code[25] == If(DIVIDE_BACK)
  {
  }

  lemma MulStart(x: Slot, y: Slot, p: Slot, funcs: seq<Fn>)
    requires Is64(x) && Is64(y) && p == Int64(S64(x) * S64(y))
    ensures Run(0, MUL_CHECKED, 0, Nil, [x, y, W64(0), W64(0), W64(0)], funcs)
         == Run(0, MUL_CHECKED, 6, Cons(p, Nil), [x, y, p, x, y], funcs)
  {
    hide *;
    var code := MUL_CHECKED;
    var l0, l1 := [x, y, W64(0), W64(0), W64(0)], [x, y, W64(0), x, W64(0)];
    var l2, l3 := [x, y, W64(0), x, y], [x, y, p, x, y];
    assert l0[3 := x] == l1 && l1[4 := y] == l2 && l2[2 := p] == l3;
    MulCode();
    MulOp(x, y);
    AtGet(0, code, 0, 0, Nil, l0, funcs);
    AtTee(0, code, 1, 3, x, Nil, l0, funcs);
    AtGet(0, code, 2, 1, Cons(x, Nil), l1, funcs);
    AtTee(0, code, 3, 4, y, Cons(x, Nil), l1, funcs);
    AtOp(0, code, 4, x, y, p, Nil, l2, funcs);
    AtTee(0, code, 5, 2, p, Nil, l2, funcs);
  }

  lemma MulOp(x: Slot, y: Slot)
    requires Is64(x) && Is64(y)
    ensures Apply(Mul64, x, y) == Value(Int64(S64(x) * S64(y)))
    ensures SameKind(x, W64(0)) && SameKind(y, W64(0)) && SameKind(Int64(S64(x) * S64(y)), W64(0))
  {
    WrapsExact(Mul, x, y);
    Applied64(x, y);
  }

  // ---- Dividing the product back.

  lemma MulUnique(x: int, y: nat)
    requires y > 0
    ensures (x * y) / y == x && (x * y) % y == 0
  {
    ModUnique(x * y, y, x, 0);
  }

  lemma AbsTimes(x: int, y: int)
    ensures Abs(x * y) == Abs(x) * Abs(y)
  {
    if x < 0 {
      if y < 0 {
        assert (-x) * (-y) == x * y;
      } else {
        assert (-x) * y == -(x * y);
      }
    } else if y < 0 {
      assert x * (-y) == -(x * y);
    }
  }

  lemma Positive(a: int, b: int)
    requires a > 0 && b > 0
    ensures a * b > 0
  {
  }

  /** Dividing an exact product gives the factor back. */
  lemma DivExact(x: int, y: int)
    requires y != 0
    ensures TruncDiv(x * y, y) == x
  {
    AbsTimes(x, y);
    MulUnique(Abs(x), Abs(y));
    if x == 0 {
      assert x * y == 0;
    } else {
      Positive(Abs(x), Abs(y));
      if (x < 0) == (y < 0) {
        assert x * y == Abs(x) * Abs(y) by {
          assert (-x) * (-y) == x * y;
        }
      } else {
        assert x * y == -(Abs(x) * Abs(y)) by {
          assert (-x) * y == -(x * y) && x * (-y) == -(x * y);
        }
      }
    }
  }

  /** The quotient times the divisor is within the divisor's magnitude of the dividend. */
  lemma DivClose(p: int, y: int)
    requires y != 0
    ensures Abs(p - TruncDiv(p, y) * y) < Abs(y)
    ensures Abs(TruncDiv(p, y)) <= Abs(p)
    ensures Abs(y) > 1 && p != 0 ==> Abs(TruncDiv(p, y)) < Abs(p)
  {
    hide TruncDiv;
    QuotientTimes(p, y, Abs(p) / Abs(y));
    QuotientSize(p, y);
    Magnitudes(Abs(p), Abs(y), Abs(p) / Abs(y));
    Within(p, TruncDiv(p, y) * y, Abs(y) * (Abs(p) / Abs(y)), Abs(y));
  }

  lemma QuotientSize(p: int, y: int)
    requires y != 0
    ensures Abs(TruncDiv(p, y)) == Abs(p) / Abs(y)
  {
  }

  lemma Within(p: int, back: int, s: int, b: int)
    requires back == (if p < 0 then -s else s) && 0 <= Abs(p) - s < b
    ensures Abs(p - back) < b
  {
  }

  lemma QuotientTimes(p: int, y: int, q: int)
    requires y != 0 && q == Abs(p) / Abs(y)
    ensures TruncDiv(p, y) * y == if p < 0 then -(Abs(y) * q) else Abs(y) * q
  {
    SignedProducts(q, y, Abs(y));
  }

  lemma Magnitudes(a: nat, b: nat, q: nat)
    requires b > 0 && q == a / b
    ensures 0 <= a - b * q < b && q <= a && (b > 1 && a > 0 ==> q < a)
  {
    QuotientSmall(b, q);
  }

  lemma SignedProducts(q: int, y: int, b: int)
    requires b == Abs(y)
    ensures q * y == (if y < 0 then -(b * q) else b * q) && (-q) * y == -(q * y)
  {
    if y < 0 {
      assert q * y == -(q * (-y));
    }
  }

  lemma QuotientSmall(b: nat, q: nat)
    requires b > 0
    ensures q <= b * q && (b > 1 && q > 0 ==> q < b * q)
  {
    if q > 0 && b > 1 {
      assert b * q == q + (b - 1) * q;
      Positive(b - 1, q);
    }
  }

  /** A wrapped product divides back to the factor exactly when it did not wrap, and the
      division itself is defined. */
  lemma DivideBack(x: int, y: int, p: int)
    requires InI64(x) && InI64(y) && y != 0 && p == S64(Int64(x * y))
    requires !(x == I64_MIN && y == -1)
    ensures InI64(TruncDiv(p, y))
    ensures TruncDiv(p, y) == x <==> InI64(x * y)
  {
    Wraps(x * y);
    var q := TruncDiv(p, y);
    if InI64(x * y) {
      DivExact(x, y);
    } else {
      var k := WrapFactor(x * y, p);
      DivClose(p, y);
      if q == x {
        MultipleTooBig(k, x * y - p);
      }
      if !InI64(q) {
        assert Abs(p) == TWO64 / 2 && Abs(y) == 1;
        OnlyMinOverflows(x, y, p, k);
      }
    }
  }

  lemma WrapFactor(n: int, p: int) returns (k: int)
    requires p == S64(Int64(n))
    ensures n == p + TWO64 * k && InI64(p)
  {
    Wraps(n);
    k := if p < 0 then n / TWO64 + 1 else n / TWO64;
  }

  lemma MultipleTooBig(k: int, d: int)
    requires d == TWO64 * k && -(TWO64 / 2) < d < TWO64 / 2
    ensures k == 0 && d == 0
  {
  }

  lemma OnlyMinOverflows(x: int, y: int, p: int, k: int)
    requires InI64(x) && InI64(p) && Abs(p) == TWO64 / 2 && Abs(y) == 1 && !InI64(TruncDiv(p, y))
    requires x * y == p + TWO64 * k
    ensures x == I64_MIN && y == -1
  {
    assert p == I64_MIN;
    DivExact(p, 1);
    assert y == -1 ==> x * y == -x;
  }

  // ---- The generated product.

  lemma DivideBackCode()
    ensures |DIVIDE_BACK| == 6 && DIVIDE_BACK[0] == Get(2) && DIVIDE_BACK[1] == Get(4) && DIVIDE_BACK[2] == DivS64
    ensures DIVIDE_BACK[3] == Get(3) && DIVIDE_BACK[4] == Ne64 && DIVIDE_BACK[5] == If([Unreachable])
  {
  }

  lemma DivideOp(p: Slot, x: Slot, y: Slot) returns (q: Slot)
    requires Is64(x) && Is64(y) && S64(y) != 0 && p == Int64(S64(x) * S64(y)) && !Special(x, y)
    ensures Apply(DivS64, p, y) == Value(q)
    ensures Apply(Ne64, q, x) == Value(Truth(!InI64(S64(x) * S64(y))))
  {
    SignedIsBits(x);
    SignedIsBits(y);
    Wraps(S64(x) * S64(y));
    DivideBack(S64(x), S64(y), S64(p));
    q := Int64(TruncDiv(S64(p), S64(y)));
    DivApplied(p, y);
    Applied64(q, x);
    Wraps(TruncDiv(S64(p), S64(y)));
  }

  lemma DivApplied(a: Slot, b: Slot)
    requires Is64(a) && Is64(b) && S64(b) != 0 && InI64(TruncDiv(S64(a), S64(b)))
    ensures Apply(DivS64, a, b) == Value(Int64(TruncDiv(S64(a), S64(b))))
  {
    hide AndBits, OrBits, XorBits, Pow2, TruncDiv;
  }

  /** The inner check, for a non-zero second operand. */
  lemma DividesBack(x: Slot, y: Slot, p: Slot, stack: Stack, funcs: seq<Fn>)
    requires Is64(x) && Is64(y) && S64(y) != 0 && p == Int64(S64(x) * S64(y)) && !Special(x, y)
    ensures Run(0, DIVIDE_BACK, 0, stack, [x, y, p, x, y], funcs)
         == if InI64(S64(x) * S64(y)) then Done(stack, [x, y, p, x, y]) else Traps(Reached)
  {
    hide *;
    var code, locals := DIVIDE_BACK, [x, y, p, x, y];
    DivideBackCode();
    var q := DivideOp(p, x, y);
    var bad := !InI64(S64(x) * S64(y));
    AtGet(0, code, 0, 2, stack, locals, funcs);
    AtGet(0, code, 1, 4, Cons(p, stack), locals, funcs);
    AtOp(0, code, 2, p, y, q, stack, locals, funcs);
    AtGet(0, code, 3, 3, Cons(q, stack), locals, funcs);
    AtOp(0, code, 4, q, x, Truth(bad), stack, locals, funcs);
    AtUnreachable(0, stack, locals, funcs);
    AtIf(0, code, 5, [Unreachable], bad, stack, locals, funcs);
    AtEnd(0, code, stack, locals, funcs);
  }

  /** The two special pairs, and the code up to the division. */
  lemma SpecialsTested(x: Slot, y: Slot, p: Slot, funcs: seq<Fn>)
    requires Is64(x) && Is64(y)
    ensures Run(0, MUL_CHECKED, 6, Cons(p, Nil), [x, y, p, x, y], funcs)
         == if Special(x, y) || Special(y, x) then Traps(Reached)
            else Run(0, MUL_CHECKED, 22, Cons(p, Nil), [x, y, p, x, y], funcs)
  {
    hide *;
    var code, locals, stack := MUL_CHECKED, [x, y, p, x, y], Cons(p, Nil);
    MulCodeMiddle();
    MulCodeEnd();
    var a, b := Special(x, y), Special(y, x);
    SpecialTest(code, 6, 3, 4, stack, locals, funcs);
    SpecialTest(code, 13, 4, 3, Cons(Truth(a), stack), locals, funcs);
    AppliedFlags(a, b);
    AtOp(0, code, 20, Truth(a), Truth(b), Truth(a || b), stack, locals, funcs);
    AtUnreachable(0, stack, locals, funcs);
    AtIf(0, code, 21, [Unreachable], a || b, stack, locals, funcs);
  }

  lemma MulEnd(x: Slot, y: Slot, p: Slot, funcs: seq<Fn>)
    requires Is64(x) && Is64(y) && p == Int64(S64(x) * S64(y)) && !Special(x, y)
    ensures Run(0, MUL_CHECKED, 22, Cons(p, Nil), [x, y, p, x, y], funcs)
         == if InI64(S64(x) * S64(y)) then Done(Cons(p, Nil), [x, y, p, x, y]) else Traps(Reached)
  {
    hide *;
    var code, locals, stack := MUL_CHECKED, [x, y, p, x, y], Cons(p, Nil);
    MulCodeEnd();
    NotZero(y);
    var n := S64(y) != 0;
    AtGet(0, code, 22, 4, stack, locals, funcs);
    AtConst64(0, code, 23, 0, Cons(y, stack), locals, funcs);
    AtOp(0, code, 24, y, Int64(0), Truth(n), stack, locals, funcs);
    if n {
      DividesBack(x, y, p, stack, funcs);
      IfBody(code, 25, DIVIDE_BACK, stack, locals, funcs);
    } else {
      ZeroFits(x, y);
      AtIf(0, code, 25, DIVIDE_BACK, false, stack, locals, funcs);
    }
    AtEnd(0, code, stack, locals, funcs);
  }

  lemma IfBody(code: seq<Op>, pc: nat, body: seq<Op>, stack: Stack, locals: seq<Slot>, funcs: seq<Fn>)
    requires pc < |code| && code[pc] == If(body)
    ensures var r := Run(0, body, 0, stack, locals, funcs);
            Run(0, code, pc, Cons(Truth(true), stack), locals, funcs)
            == if r.Done? then Run(0, code, pc + 1, r.stack, r.locals, funcs) else r
  {
  }

  lemma NotZero(y: Slot)
    requires Is64(y)
    ensures Apply(Ne64, y, Int64(0)) == Value(Truth(S64(y) != 0))
  {
    EqualsSigned(y, 0);
    Applied64(y, Int64(0));
  }

  lemma ZeroFits(x: Slot, y: Slot)
    requires S64(y) == 0
    ensures InI64(S64(x) * S64(y))
  {
    assert S64(x) * 0 == 0;
  }

  lemma SpecialOverflows(x: Slot, y: Slot)
    requires Special(x, y)
    ensures !InI64(S64(x) * S64(y)) && !InI64(S64(y) * S64(x))
  {
    assert I64_MIN * -1 == TWO64 / 2;
  }

  /** The generated product traps exactly when the signed product does not fit. */
  lemma MulChecks(x: Slot, y: Slot, funcs: seq<Fn>)
    requires Is64(x) && Is64(y)
    ensures Checks(Run(0, MUL_CHECKED, 0, Nil, [x, y, W64(0), W64(0), W64(0)], funcs), S64(x) * S64(y))
  {
    hide Run, Int64, S64, InI64, Is64, Special;
    var p := Int64(S64(x) * S64(y));
    MulStart(x, y, p, funcs);
    SpecialsTested(x, y, p, funcs);
    if Special(x, y) {
      SpecialOverflows(x, y);
    } else if Special(y, x) {
      SpecialOverflows(y, x);
    } else {
      MulEnd(x, y, p, funcs);
    }
  }

  /** Every checked operation, called on any two 64-bit numbers: exact when the signed
      result fits, `unreachable` otherwise; the division inside the product never traps
      by itself. */
  lemma CheckedIsExact(op: Arith, x: Slot, y: Slot, funcs: seq<Fn>)
    requires Is64(x) && Is64(y)
    ensures Checks(Invoke(1, Body(op), x, y, funcs), Exact(op, S64(x), S64(y)))
  {
    hide Run, Checks;
    if op.Mul? {
      assert [x, y] + Zeros(3) == [x, y, W64(0), W64(0), W64(0)];
      MulChecks(x, y, funcs);
    } else {
      assert [x, y] + Zeros(1) == [x, y, W64(0)];
      AddSubChecks(op, x, y, funcs);
    }
  }

  // ---- The same check on unsigned operands.

  predicate High(x: nat) { x >= TWO64 / 2 }

  /** What an unsigned overflow check should do. */
  predicate ChecksUnsigned(r: Outcome, n: int) {
    if 0 <= n < TWO64 then r.Done? && r.stack == Cons(W64(n), Nil) else r == Traps(Reached)
  }

  predicate SumRight(x: nat, y: nat) {
    if High(x) && High(y) then x + y < 3 * (TWO64 / 2)
    else if High(x) || High(y) then x + y < TWO64
    else x + y < TWO64 / 2
  }

  predicate DifferenceRight(x: nat, y: nat) {
    if High(x) == High(y) then y <= x
    else if High(x) then x - y >= TWO64 / 2
    else y - x <= TWO64 / 2
  }

  /** The compiler uses the signed checks for unsigned numbers too. A sum of two of them
      is then checked rightly exactly when it is below 2^63, or below 2^64 with a
      high operand, or past 2^64 but below 3 * 2^63 with both operands high. */
  lemma UnsignedSumExactWhen(x: nat, y: nat, funcs: seq<Fn>)
    requires x < TWO64 && y < TWO64
    ensures ChecksUnsigned(Invoke(1, Body(Add), W64(x), W64(y), funcs), x + y) <==> SumRight(x, y)
  {
    hide Invoke, Body;
    CheckedIsExact(Add, W64(x), W64(y), funcs);
    Wraps(S64(W64(x)) + S64(W64(y)));
  }

  /** A difference is checked rightly exactly when the operands are on the same side of
      2^63 and do not go below zero, or on different sides and far apart the right way. */
  lemma UnsignedDifferenceExactWhen(x: nat, y: nat, funcs: seq<Fn>)
    requires x < TWO64 && y < TWO64
    ensures ChecksUnsigned(Invoke(1, Body(Sub), W64(x), W64(y), funcs), x - y) <==> DifferenceRight(x, y)
  {
    hide Invoke, Body;
    CheckedIsExact(Sub, W64(x), W64(y), funcs);
    Wraps(S64(W64(x)) - S64(W64(y)));
  }

  /** A product of two low operands is checked rightly exactly when it is below 2^63 or
      does not fit; of one high operand, exactly when the other is 0 or 1 or the
      distance of the high one from 2^64, times the low one, is past 2^63; of two high
      operands, exactly when the product of both distances reaches 2^63. */
  predicate ProductRight(x: nat, y: nat) {
    if High(x) && High(y) then (TWO64 - x) * (TWO64 - y) >= TWO64 / 2
    else if High(x) then y <= 1 || (TWO64 - x) * y > TWO64 / 2
    else if High(y) then x <= 1 || (TWO64 - y) * x > TWO64 / 2
    else x * y < TWO64 / 2 || x * y >= TWO64
  }

  lemma UnsignedProductExactWhen(x: nat, y: nat, funcs: seq<Fn>)
    requires x < TWO64 && y < TWO64
    ensures ChecksUnsigned(Invoke(1, Body(Mul), W64(x), W64(y), funcs), x * y) <==> ProductRight(x, y)
  {
    hide Invoke, Body;
    CheckedIsExact(Mul, W64(x), W64(y), funcs);
    SignedFits(x, y);
    UnsignedFits(x, y);
    WrapsExact(Mul, W64(x), W64(y));
    if x * y < TWO64 {
      ModUnique(x * y, TWO64, 0, x * y);
    }
  }

  /** When the signed product fits. */
  lemma SignedFits(x: nat, y: nat)
    requires x < TWO64 && y < TWO64
    ensures InI64(S64(W64(x)) * S64(W64(y))) <==>
            (if High(x) && High(y) then (TWO64 - x) * (TWO64 - y) < TWO64 / 2
             else if High(x) then (TWO64 - x) * y <= TWO64 / 2
             else if High(y) then (TWO64 - y) * x <= TWO64 / 2
             else x * y < TWO64 / 2)
  {
    if High(x) && High(y) {
      Negated(TWO64 - x, TWO64 - y);
      Positive(TWO64 - x, TWO64 - y);
    } else if High(x) {
      Negated(TWO64 - x, y);
      NotNegative(TWO64 - x, y);
    } else if High(y) {
      Negated(TWO64 - y, x);
      NotNegative(TWO64 - y, x);
    } else {
      NotNegative(x, y);
    }
  }

  lemma Negated(a: int, b: int)
    ensures (-a) * b == -(a * b) && b * (-a) == -(a * b) && (-a) * (-b) == a * b
  {
  }

  lemma NotNegative(a: nat, b: nat)
    ensures a * b >= 0
  {
  }

  /** When the unsigned product fits. */
  lemma UnsignedFits(x: nat, y: nat)
    requires x < TWO64 && y < TWO64
    ensures High(x) ==> (x * y < TWO64 <==> y <= 1)
    ensures High(y) ==> (x * y < TWO64 <==> x <= 1)
    ensures x * y >= 0
  {
    NotNegative(x, y);
    if High(x) && y >= 2 {
      AtLeastTwice(x, y);
    }
    if High(y) && x >= 2 {
      AtLeastTwice(y, x);
    }
    assert y == 1 ==> x * y == x;
    assert x == 1 ==> x * y == y;
    assert y == 0 ==> x * y == 0;
    assert x == 0 ==> x * y == 0;
  }

  lemma AtLeastTwice(a: nat, b: nat)
    requires b >= 2
    ensures a * b >= 2 * a && b * a >= 2 * a
  {
    assert a * b == 2 * a + a * (b - 2);
    NotNegative(a, b - 2);
  }

  /** An example: 2^63 - 1 plus 1 fits 64 unsigned bits, but traps. */
  lemma UnsignedSumTraps(funcs: seq<Fn>)
    ensures Invoke(1, Body(Add), W64(0x7FFF_FFFF_FFFF_FFFF), W64(1), funcs) == Traps(Reached)
  {
    hide Invoke, Body;
    CheckedIsExact(Add, W64(0x7FFF_FFFF_FFFF_FFFF), W64(1), funcs);
  }
}

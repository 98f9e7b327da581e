/** Code for sums, differences, products and negations of any nesting, at every integer
    width (`visit_expr_stack` in `lib.rs`, `emit_truncate` in `intrinsics.rs`). */
module ArithCode {
  import opened Options
  import opened StarTypes
  import opened Wasm
  import opened EnumEncoding
  import opened IntMachine
  import opened Intrinsics

  datatype Expr = Lit(n: int) | Var(x: nat) | Binary(op: Arith, left: Expr, right: Expr) | Negate(e: Expr)

  /** Literals fit the width, as the type checker ensures, and variables are bound. */
  predicate WellTyped(e: Expr, w: IntWidth, vars: nat) {
    match e
    case Lit(n) => Fits(w, n)
    case Var(x) => x < vars
    case Binary(_, l, r) => WellTyped(l, w, vars) && WellTyped(r, w, vars)
    case Negate(inner) => WellTyped(inner, w, vars)
  }

  // ---- What expressions mean.

  function Modulus(w: IntWidth): nat {
    match w
    case I8 | U8 => 0x100
    case I16 | U16 => 0x1_0000
    case I32 | U32 => TWO32
    case I64 | U64 => TWO64
  }

  /** The value of width w that is congruent to n. */
  function Wrap(w: IntWidth, n: int): int {
    if IsSigned(w) then Signed(n % Modulus(w), Modulus(w)) else n % Modulus(w)
  }

  lemma WrapIsUnique(w: IntWidth, n: int, m: int)
    ensures Fits(w, Wrap(w, n)) && Wrap(w, n) % Modulus(w) == n % Modulus(w)
    ensures Fits(w, m) && m % Modulus(w) == n % Modulus(w) ==> m == Wrap(w, n)
  {
    var r := n % Modulus(w);
    ModUnique(r, Modulus(w), 0, r);
    ModUnique(r - Modulus(w), Modulus(w), -1, r);
    if Fits(w, m) {
      if m < 0 {
        ModUnique(m, Modulus(w), -1, m + Modulus(w));
      } else {
        ModUnique(m, Modulus(w), 0, m);
      }
    }
  }

  /** Over the mathematical integers, nothing wrapped anywhere. */
  function ExactOf(e: Expr, w: IntWidth, vals: seq<int>): int
    requires WellTyped(e, w, |vals|)
  {
    match e
    case Lit(n) => n
    case Var(x) => vals[x]
    case Binary(op, l, r) => Exact(op, ExactOf(l, w, vals), ExactOf(r, w, vals))
    case Negate(inner) => -ExactOf(inner, w, vals)
  }

  /** The signed number of a 64-bit pattern. */
  function Wrap64(n: int): int {
    S64(Int64(n))
  }

  /** At 64 bits, on signed numbers: None when a check fails. A negation is never
      checked. */
  function Eval64(e: Expr, w: IntWidth, check: bool, vals: seq<int>): Option<int>
    requires WellTyped(e, w, |vals|)
  {
    match e
    case Lit(n) => Some(Wrap64(n))
    case Var(x) => Some(Wrap64(vals[x]))
    case Binary(op, l, r) =>
      var a, b := Eval64(l, w, check, vals), Eval64(r, w, check, vals);
      if a.None? || b.None? || (check && !InI64(Exact(op, a.value, b.value))) then None
      else Some(Wrap64(Exact(op, a.value, b.value)))
    case Negate(inner) =>
      var a := Eval64(inner, w, check, vals);
      if a.None? then None else Some(Wrap64(-a.value))
  }

  /** What running the code of an expression must do. */
  function Expected(e: Expr, w: IntWidth, check: bool, vals: seq<int>, stack: Stack, locals: seq<Slot>): Outcome
    requires WellTyped(e, w, |vals|)
  {
    if Is64Bit(w) then
      var v := Eval64(e, w, check, vals);
      if v.None? then Traps(Reached) else Done(Cons(Int64(v.value), stack), locals)
    else Done(Cons(IntSlot(w, Wrap(w, ExactOf(e, w, vals))), stack), locals)
  }

  /** Variables live in the first locals, in canonical form. */
  predicate Env(w: IntWidth, vals: seq<int>, locals: seq<Slot>) {
    |vals| <= |locals| && forall x :: 0 <= x < |vals| ==> Fits(w, vals[x]) && locals[x] == IntSlot(w, vals[x])
  }

  ghost predicate Computes(code: seq<Op>, e: Expr, w: IntWidth, check: bool, funcs: seq<Fn>) {
    forall vals: seq<int>, stack, locals, funcs' ::
      funcs <= funcs' && Env(w, vals, locals) && WellTyped(e, w, |vals|)
      ==> Run(1, code, 0, stack, locals, funcs') == Expected(e, w, check, vals, stack, locals)
  }

  // ---- Truncation.

  function TruncateCode(w: IntWidth): seq<Op> {
    match w
    case I8 => [Const32(24), Shl32, Const32(24), ShrS32]
    case I16 => [Const32(16), Shl32, Const32(16), ShrS32]
    case U8 => [Const32(0xFF), And32]
    case U16 => [Const32(0xFFFF), And32]
    case _ => []
  }

  lemma Halves(n: int, p: nat, c: nat)
    requires p > 0 && c > 0 && p * c == TWO32
    ensures n % TWO32 % p == n % p
    ensures (n % TWO32) * c % TWO32 == (n % p) * c
  {
    var b := n % TWO32;
    var q, r := b / p, b % p;
    assert b == p * q + r;
    assert b * c == TWO32 * q + r * c by {
      assert (p * q + r) * c == (p * c) * q + r * c;
    }
    ScaledBelow(r, p, c);
    ModUnique(b * c, TWO32, q, r * c);
    var k := n / TWO32;
    assert n == TWO32 * k + b;
    assert n == p * (c * k + q) + r by {
      assert (p * c) * k == p * (c * k);
      assert p * (c * k) + p * q == p * (c * k + q);
    }
    ModUnique(n, p, c * k + q, r);
  }

  lemma ScaledBelow(r: nat, p: nat, c: nat)
    requires r < p && c > 0
    ensures r * c < p * c
  {
    assert (p - r) * c > 0 by {
      Positive(p - r, c);
    }
  }

  /** Scaled up and wrapped, the low part with its sign is still there. */
  lemma ScaledUp(m: int, p: nat, c: nat)
    requires p > 0 && c > 0 && p * c == TWO32 && p % 2 == 0 && -(p / 2) <= m < p / 2
    ensures Signed((m * c) % TWO32, TWO32) == m * c && (m * c) / c == m
  {
    var h := p / 2;
    assert h * c == TWO32 / 2 by {
      assert p * c == 2 * (h * c);
    }
    if m < 0 {
      assert m * c >= -(h * c) by {
        assert (m + h) * c >= 0;
      }
      assert m * c < 0 by {
        Positive(-m, c);
        assert (-m) * c == -(m * c);
      }
      ModUnique(m * c, TWO32, -1, m * c + TWO32);
    } else {
      ScaledBelow(m, h, c);
      assert m * c >= 0;
      ModUnique(m * c, TWO32, 0, m * c);
    }
    ModUnique(m * c, c, m, 0);
  }

  lemma LowPart(n: int, p: nat, c: nat)
    requires p > 0 && c > 0 && p * c == TWO32
    ensures (n % TWO32) * c % TWO32 == (Signed(n % p, p) * c) % TWO32
  {
    Halves(n, p, c);
    var r := n % p;
    if r >= p / 2 {
      assert (r - p) * c == r * c - TWO32 by {
        assert (r - p) * c == r * c - p * c;
      }
      Shift(r * c - TWO32, TWO32, 1);
      ScaledBelow(r, p, c);
      ModUnique(r * c, TWO32, 0, r * c);
    } else {
      ScaledBelow(r, p, c);
      ModUnique(r * c, TWO32, 0, r * c);
    }
  }

  lemma ShiftOps(a: nat, k: nat, p: nat)
    requires k < 32 && p == Pow2(k) && p > 0
    ensures Apply(Shl32, W32(a), Int32(k)) == Value(Int32(a * p))
    ensures Apply(ShrS32, W32(a), Int32(k)) == Value(Int32(Signed(a, TWO32) / p))
  {
    hide AndBits, OrBits, XorBits, TruncDiv, Pow2, Signed;
    SmallShift(k);
  }

  lemma SmallShift(k: nat)
    requires k < 32
    ensures Int32(k) == W32(k) && k % 32 == k
  {
  }

  /** Shifting left and back, arithmetically, keeps the low bits and their sign. */
  lemma ShiftedBack(w: IntWidth, n: int, k: nat, c: nat)
    requires (w.I8? && k == 24 && c == 0x100_0000) || (w.I16? && k == 16 && c == 0x1_0000)
    ensures Apply(Shl32, Int32(n), Int32(k)) == Value(Int32(Wrap(w, n) * c))
    ensures Apply(ShrS32, Int32(Wrap(w, n) * c), Int32(k)) == Value(IntSlot(w, Wrap(w, n)))
  {
    hide Apply, Pow2, Signed;
    Pow2Values();
    WrapRange(w, n);
    LowPart(n, Modulus(w), c);
    ScaledUp(Wrap(w, n), Modulus(w), c);
    ShiftOps(n % TWO32, k, c);
    ShiftOps((Wrap(w, n) * c) % TWO32, k, c);
  }

  lemma WrapRange(w: IntWidth, n: int)
    requires IsSigned(w)
    ensures -(Modulus(w) / 2) <= Wrap(w, n) < Modulus(w) / 2 && Wrap(w, n) == Signed(n % Modulus(w), Modulus(w))
    ensures Modulus(w) % 2 == 0
  {
  }

  lemma Masked(w: IntWidth, n: int)
    requires w.U8? || w.U16?
    ensures Apply(And32, Int32(n), Int32(if w.U8? then 0xFF else 0xFFFF)) == Value(IntSlot(w, Wrap(w, n)))
  {
    hide *;
    MaskSlot(w, n);
    MaskOp(Int32(n), if w.U8? then 0xFF else 0xFFFF);
  }

  lemma MaskOp(a: Slot, mask: nat)
    requires a.W32? && mask < TWO32
    ensures Apply(And32, a, Int32(mask)) == Value(W32(AndBits(a.bits, mask, 32)))
  {
    hide AndBits;
    assert Int32(mask) == W32(mask);
    assert Apply(And32, a, W32(mask)) == Op32(And32, a, W32(mask));
  }

  lemma MaskSlot(w: IntWidth, n: int)
    requires w.U8? || w.U16?
    ensures Int32(n).W32? && (if w.U8? then 0xFF else 0xFFFF) < TWO32
    ensures W32(AndBits(Int32(n).bits, if w.U8? then 0xFF else 0xFFFF, 32)) == IntSlot(w, Wrap(w, n))
  {
    hide AndBits;
    Pow2Values();
    MaskKeeps(n % TWO32, if w.U8? then 8 else 16, 32);
    Halves(n, Modulus(w), if w.U8? then 0x100_0000 else 0x1_0000);
  }

  /** After any 32-bit operation, truncation leaves the canonical form of the one value
      of the width that is congruent to the exact result. */
  lemma TruncateIsCanonical(w: IntWidth, n: int, level: nat, stack: Stack, locals: seq<Slot>, funcs: seq<Fn>)
    requires !Is64Bit(w)
    ensures Run(level, TruncateCode(w), 0, Cons(Int32(n), stack), locals, funcs)
         == Done(Cons(IntSlot(w, Wrap(w, n)), stack), locals)
  {
    hide Apply, Run, Wrap, Pow2, IntSlot, Int32;
    var code := TruncateCode(w);
    if w.I8? || w.I16? {
      var k := if w.I8? then 24 else 16;
      var c := if w.I8? then 0x100_0000 else 0x1_0000;
      var mid := Int32(Wrap(w, n) * c);
      ShiftedBack(w, n, k, c);
      AtConst32(level, code, 0, k, Cons(Int32(n), stack), locals, funcs);
      AtOp(level, code, 1, Int32(n), Int32(k), mid, stack, locals, funcs);
      AtConst32(level, code, 2, k, Cons(mid, stack), locals, funcs);
      AtOp(level, code, 3, mid, Int32(k), IntSlot(w, Wrap(w, n)), stack, locals, funcs);
      AtEnd(level, code, Cons(IntSlot(w, Wrap(w, n)), stack), locals, funcs);
    } else if w.U8? || w.U16? {
      var mask := if w.U8? then 0xFF else 0xFFFF;
      Masked(w, n);
      AtConst32(level, code, 0, mask, Cons(Int32(n), stack), locals, funcs);
      AtOp(level, code, 1, Int32(n), Int32(mask), IntSlot(w, Wrap(w, n)), stack, locals, funcs);
      AtEnd(level, code, Cons(IntSlot(w, Wrap(w, n)), stack), locals, funcs);
    } else {
      WordIsCanonical(w, n);
      AtEnd(level, code, Cons(Int32(n), stack), locals, funcs);
    }
  }

  lemma WordIsCanonical(w: IntWidth, n: int)
    requires w.I32? || w.U32?
    ensures Int32(n) == IntSlot(w, Wrap(w, n))
  {
    WrapIsUnique(w, n, 0);
  }

  // ---- Leaves.

  lemma Use(code: seq<Op>, e: Expr, w: IntWidth, check: bool, funcs: seq<Fn>, vals: seq<int>, stack: Stack,
            locals: seq<Slot>, funcs': seq<Fn>)
    requires Computes(code, e, w, check, funcs)
    requires funcs <= funcs' && Env(w, vals, locals) && WellTyped(e, w, |vals|)
    ensures Run(1, code, 0, stack, locals, funcs') == Expected(e, w, check, vals, stack, locals)
  {
    hide Run, Expected, Env;
  }

  lemma WrapsSelf(w: IntWidth, n: int)
    requires Fits(w, n)
    ensures Wrap(w, n) == n
  {
    WrapIsUnique(w, n, n);
  }

  lemma WrappedBits(n: int)
    ensures Int64(Wrap64(n)) == Int64(n)
  {
    Wraps(n);
    SignedIsBits(Int64(n));
  }

  lemma LitComputes(n: int, w: IntWidth, check: bool, funcs: seq<Fn>)
    ensures Computes([if Is64Bit(w) then Const64(n) else Const32(n)], Lit(n), w, check, funcs)
  {
    var code := [if Is64Bit(w) then Const64(n) else Const32(n)];
    forall vals: seq<int>, stack, locals, funcs' | funcs <= funcs' && Env(w, vals, locals) && WellTyped(Lit(n), w, |vals|)
      ensures Run(1, code, 0, stack, locals, funcs') == Expected(Lit(n), w, check, vals, stack, locals)
    {
      WrappedBits(n);
      WrapsSelf(w, n);
    }
  }

  lemma VarComputes(x: nat, w: IntWidth, check: bool, funcs: seq<Fn>)
    ensures Computes([Get(x)], Var(x), w, check, funcs)
  {
    forall vals: seq<int>, stack, locals, funcs' | funcs <= funcs' && Env(w, vals, locals) && WellTyped(Var(x), w, |vals|)
      ensures Run(1, [Get(x)], 0, stack, locals, funcs') == Expected(Var(x), w, check, vals, stack, locals)
    {
      WrappedBits(vals[x]);
      WrapsSelf(w, vals[x]);
    }
  }

  lemma ComputesMore(code: seq<Op>, e: Expr, w: IntWidth, check: bool, funcs: seq<Fn>, funcs': seq<Fn>)
    requires Computes(code, e, w, check, funcs) && funcs <= funcs'
    ensures Computes(code, e, w, check, funcs')
  {
    hide Run, Expected, Env;
  }

  // ---- Operators.

  function Op32Of(op: Arith): Op {
    match op
    case Add => Add32
    case Sub => Sub32
    case Mul => Mul32
  }

  function Op64Of(op: Arith): Op {
    match op
    case Add => Add64
    case Sub => Sub64
    case Mul => Mul64
  }

  lemma Applied32(op: Arith, a: int, b: int)
    ensures Apply(Op32Of(op), Int32(a), Int32(b)) == Value(Int32(Exact(op, a, b)))
  {
    hide AndBits, OrBits, XorBits, TruncDiv, Pow2;
    match op
    case Add => AddMod(a, b, TWO32);
    case Sub => SubMod(a, b, TWO32);
    case Mul => MulMod(a, b, TWO32);
  }

  /** Wrapping the operands first does not change the wrapped result. */
  lemma WrapCongruent(op: Arith, w: IntWidth, a: int, b: int)
    ensures Wrap(w, Exact(op, Wrap(w, a), Wrap(w, b))) == Wrap(w, Exact(op, a, b))
  {
    hide Wrap, Exact;
    WrapIsUnique(w, a, 0);
    WrapIsUnique(w, b, 0);
    ExactCongruent(op, Modulus(w), a, b, Wrap(w, a), Wrap(w, b));
    SameWrap(w, Exact(op, Wrap(w, a), Wrap(w, b)), Exact(op, a, b));
  }

  lemma ExactCongruent(op: Arith, m: nat, a: int, b: int, a': int, b': int)
    requires m > 0 && a % m == a' % m && b % m == b' % m
    ensures Exact(op, a', b') % m == Exact(op, a, b) % m
  {
    match op {
      case Add => AddMod(a, b, m); AddMod(a', b', m);
      case Sub => SubMod(a, b, m); SubMod(a', b', m);
      case Mul => MulMod(a, b, m); MulMod(a', b', m);
    }
  }

  lemma SameWrap(w: IntWidth, a: int, b: int)
    requires a % Modulus(w) == b % Modulus(w)
    ensures Wrap(w, a) == Wrap(w, b)
  {
  }

  /** A narrow operator and its truncation. */
  lemma NarrowOp(op: Arith, w: IntWidth, a: int, b: int, stack: Stack, locals: seq<Slot>, funcs: seq<Fn>)
    requires !Is64Bit(w)
    ensures Run(1, [Op32Of(op)] + TruncateCode(w), 0, Cons(IntSlot(w, Wrap(w, b)), Cons(IntSlot(w, Wrap(w, a)), stack)), locals, funcs)
         == Done(Cons(IntSlot(w, Wrap(w, Exact(op, a, b))), stack), locals)
  {
    hide Run, Apply, Wrap, Exact;
    var x, y := Wrap(w, a), Wrap(w, b);
    SlotIs32(w, x);
    SlotIs32(w, y);
    Applied32(op, x, y);
    AtOp(1, [Op32Of(op)], 0, Int32(x), Int32(y), Int32(Exact(op, x, y)), stack, locals, funcs);
    AtEnd(1, [Op32Of(op)], Cons(Int32(Exact(op, x, y)), stack), locals, funcs);
    RunConcat(1, [Op32Of(op)], TruncateCode(w), 0, Cons(Int32(y), Cons(Int32(x), stack)), locals, funcs);
    TruncateIsCanonical(w, Exact(op, x, y), 1, stack, locals, funcs);
    WrapCongruent(op, w, a, b);
  }

  lemma SlotIs32(w: IntWidth, n: int)
    requires !Is64Bit(w)
    ensures IntSlot(w, n) == Int32(n)
  {
  }

  /** Operand code, operand code, operator. */
  lemma TwoThen(cl: seq<Op>, cr: seq<Op>, rest: seq<Op>, a: Slot, b: Slot, stack: Stack, locals: seq<Slot>, funcs: seq<Fn>)
    requires Run(1, cl, 0, stack, locals, funcs) == Done(Cons(a, stack), locals)
    requires Run(1, cr, 0, Cons(a, stack), locals, funcs) == Done(Cons(b, Cons(a, stack)), locals)
    ensures Run(1, (cl + cr) + rest, 0, stack, locals, funcs) == Run(1, rest, 0, Cons(b, Cons(a, stack)), locals, funcs)
  {
    hide *;
    RunConcat(1, cl + cr, rest, 0, stack, locals, funcs);
    RunConcat(1, cl, cr, 0, stack, locals, funcs);
  }

  lemma BinaryNarrow(op: Arith, l: Expr, r: Expr, cl: seq<Op>, cr: seq<Op>, w: IntWidth, check: bool, funcs: seq<Fn>)
    requires !Is64Bit(w) && Computes(cl, l, w, check, funcs) && Computes(cr, r, w, check, funcs)
    ensures Computes((cl + cr) + ([Op32Of(op)] + TruncateCode(w)), Binary(op, l, r), w, check, funcs)
  {
    hide Run, Wrap, Env;
    var code, e := (cl + cr) + ([Op32Of(op)] + TruncateCode(w)), Binary(op, l, r);
    forall vals: seq<int>, stack, locals, funcs' | funcs <= funcs' && Env(w, vals, locals) && WellTyped(e, w, |vals|)
      ensures Run(1, code, 0, stack, locals, funcs') == Expected(e, w, check, vals, stack, locals)
    {
      var a, b := ExactOf(l, w, vals), ExactOf(r, w, vals);
      var sa := IntSlot(w, Wrap(w, a));
      Use(cl, l, w, check, funcs, vals, stack, locals, funcs');
      Use(cr, r, w, check, funcs, vals, Cons(sa, stack), locals, funcs');
      TwoThen(cl, cr, [Op32Of(op)] + TruncateCode(w), sa, IntSlot(w, Wrap(w, b)), stack, locals, funcs');
      NarrowOp(op, w, a, b, stack, locals, funcs');
    }
  }

  lemma NegateNarrow(e: Expr, c: seq<Op>, w: IntWidth, check: bool, funcs: seq<Fn>)
    requires !Is64Bit(w) && Computes(c, e, w, check, funcs)
    ensures Computes(([Const32(0)] + c) + ([Sub32] + TruncateCode(w)), Negate(e), w, check, funcs)
  {
    hide Run, Env, Wrap, IntSlot, TruncateCode;
    var code := ([Const32(0)] + c) + ([Sub32] + TruncateCode(w));
    forall vals: seq<int>, stack, locals, funcs' | funcs <= funcs' && Env(w, vals, locals) && WellTyped(Negate(e), w, |vals|)
      ensures Run(1, code, 0, stack, locals, funcs') == Expected(Negate(e), w, check, vals, stack, locals)
    {
      Use(c, e, w, check, funcs, vals, Cons(IntSlot(w, Wrap(w, 0)), stack), locals, funcs');
      NegateNarrowRuns(c, w, ExactOf(e, w, vals), stack, locals, funcs');
    }
  }

  lemma NegateNarrowRuns(c: seq<Op>, w: IntWidth, a: int, stack: Stack, locals: seq<Slot>, funcs: seq<Fn>)
    requires !Is64Bit(w)
    requires Run(1, c, 0, Cons(IntSlot(w, Wrap(w, 0)), stack), locals, funcs)
          == Done(Cons(IntSlot(w, Wrap(w, a)), Cons(IntSlot(w, Wrap(w, 0)), stack)), locals)
    ensures Run(1, ([Const32(0)] + c) + ([Sub32] + TruncateCode(w)), 0, stack, locals, funcs)
         == Done(Cons(IntSlot(w, Wrap(w, -a)), stack), locals)
  {
    hide Run, Wrap, IntSlot, TruncateCode;
    var zero := IntSlot(w, Wrap(w, 0));
    ZeroSlot(w);
    AtConst32(1, [Const32(0)], 0, 0, stack, locals, funcs);
    AtEnd(1, [Const32(0)], Cons(zero, stack), locals, funcs);
    TwoThen([Const32(0)], c, [Sub32] + TruncateCode(w), zero, IntSlot(w, Wrap(w, a)), stack, locals, funcs);
    NarrowOp(Sub, w, 0, a, stack, locals, funcs);
  }

  lemma ZeroSlot(w: IntWidth)
    requires !Is64Bit(w)
    ensures IntSlot(w, Wrap(w, 0)) == Int32(0)
  {
    WrapsSelf(w, 0);
  }

  // ---- 64 bits.

  /** An unchecked operator, or a call of the checked one. */
  lemma WideOp(op: Arith, code: seq<Op>, a: int, b: int, check: bool, stack: Stack, locals: seq<Slot>, funcs: seq<Fn>)
    requires InI64(a) && InI64(b)
    requires if check then |code| == 1 && code[0].Call? && code[0].f < |funcs| && funcs[code[0].f] == Body(op)
             else code == [Op64Of(op)]
    ensures Run(1, code, 0, Cons(Int64(b), Cons(Int64(a), stack)), locals, funcs)
         == if check && !InI64(Exact(op, a, b)) then Traps(Reached)
            else Done(Cons(Int64(Wrap64(Exact(op, a, b))), stack), locals)
  {
    hide Exact, Body, Apply, Invoke, TruncDiv, XorBits, AndBits, OrBits, Pow2;
    Wraps(a);
    Wraps(b);
    WrappedBits(Exact(op, a, b));
    if check {
      CheckedIsExact(op, Int64(a), Int64(b), funcs);
    } else {
      Unchecked(op, a, b);
      AtOp(1, code, 0, Int64(a), Int64(b), Int64(Exact(op, a, b)), stack, locals, funcs);
    }
  }

  lemma Unchecked(op: Arith, a: int, b: int)
    requires InI64(a) && InI64(b)
    ensures Apply(Op64Of(op), Int64(a), Int64(b)) == Value(Int64(Exact(op, a, b)))
  {
    Wraps(a);
    Wraps(b);
    WrapsExact(op, Int64(a), Int64(b));
    Applied64(Int64(a), Int64(b));
  }

  lemma {:induction false} EvalInRange(e: Expr, w: IntWidth, check: bool, vals: seq<int>)
    requires WellTyped(e, w, |vals|) && Eval64(e, w, check, vals).Some?
    ensures InI64(Eval64(e, w, check, vals).value)
  {
    match e
    case Lit(n) => Wraps(n);
    case Var(x) => Wraps(vals[x]);
    case Binary(op, l, r) =>
      Wraps(Exact(op, Eval64(l, w, check, vals).value, Eval64(r, w, check, vals).value));
    case Negate(inner) => Wraps(-Eval64(inner, w, check, vals).value);
  }

  /** A trap in either operand, or else the operator. */
  lemma TwoOrTrap(cl: seq<Op>, cr: seq<Op>, rest: seq<Op>, a: Option<int>, b: Option<int>, stack: Stack,
                  locals: seq<Slot>, funcs: seq<Fn>)
    requires Run(1, cl, 0, stack, locals, funcs) == if a.None? then Traps(Reached) else Done(Cons(Int64(a.value), stack), locals)
    requires a.None? || Run(1, cr, 0, Cons(Int64(a.value), stack), locals, funcs)
                        == (if b.None? then Traps(Reached) else Done(Cons(Int64(b.value), Cons(Int64(a.value), stack)), locals))
    ensures Run(1, (cl + cr) + rest, 0, stack, locals, funcs)
         == if a.None? || b.None? then Traps(Reached)
            else Run(1, rest, 0, Cons(Int64(b.value), Cons(Int64(a.value), stack)), locals, funcs)
  {
    hide *;
    RunConcat(1, cl + cr, rest, 0, stack, locals, funcs);
    RunConcat(1, cl, cr, 0, stack, locals, funcs);
  }

  lemma BinaryWide(op: Arith, l: Expr, r: Expr, cl: seq<Op>, cr: seq<Op>, code: seq<Op>, w: IntWidth, check: bool, funcs: seq<Fn>)
    requires Is64Bit(w) && Computes(cl, l, w, check, funcs) && Computes(cr, r, w, check, funcs)
    requires if check then |code| == 1 && code[0].Call? && code[0].f < |funcs| && funcs[code[0].f] == Body(op)
             else code == [Op64Of(op)]
    ensures Computes((cl + cr) + code, Binary(op, l, r), w, check, funcs)
  {
    hide Run, Env, Exact, Body, InI64, Int64, Wrap64;
    var e := Binary(op, l, r);
    forall vals: seq<int>, stack, locals, funcs' | funcs <= funcs' && Env(w, vals, locals) && WellTyped(e, w, |vals|)
      ensures Run(1, (cl + cr) + code, 0, stack, locals, funcs') == Expected(e, w, check, vals, stack, locals)
    {
      var a, b := Eval64(l, w, check, vals), Eval64(r, w, check, vals);
      Use(cl, l, w, check, funcs, vals, stack, locals, funcs');
      if a.Some? {
        Use(cr, r, w, check, funcs, vals, Cons(Int64(a.value), stack), locals, funcs');
        EvalInRange(l, w, check, vals);
        if b.Some? {
          EvalInRange(r, w, check, vals);
          WideOp(op, code, a.value, b.value, check, stack, locals, funcs');
        }
      }
      TwoOrTrap(cl, cr, code, a, b, stack, locals, funcs');
    }
  }

  lemma NegateWide(e: Expr, c: seq<Op>, w: IntWidth, check: bool, funcs: seq<Fn>)
    requires Is64Bit(w) && Computes(c, e, w, check, funcs)
    ensures Computes(([Const64(0)] + c) + [Sub64], Negate(e), w, check, funcs)
  {
    hide Run, Env, Eval64, Int64;
    forall vals: seq<int>, stack, locals, funcs' | funcs <= funcs' && Env(w, vals, locals) && WellTyped(Negate(e), w, |vals|)
      ensures Run(1, ([Const64(0)] + c) + [Sub64], 0, stack, locals, funcs') == Expected(Negate(e), w, check, vals, stack, locals)
    {
      Use(c, e, w, check, funcs, vals, Cons(Int64(0), stack), locals, funcs');
      if Eval64(e, w, check, vals).Some? {
        EvalInRange(e, w, check, vals);
      }
      NegateRuns(c, Eval64(e, w, check, vals), stack, locals, funcs');
      NegateEval(e, w, check, vals);
    }
  }

  lemma NegateEval(e: Expr, w: IntWidth, check: bool, vals: seq<int>)
    requires WellTyped(e, w, |vals|) && WellTyped(Negate(e), w, |vals|)
    ensures var a := Eval64(e, w, check, vals);
            Eval64(Negate(e), w, check, vals) == if a.None? then None else Some(Wrap64(-a.value))
  {
  }

  lemma NegateRuns(c: seq<Op>, a: Option<int>, stack: Stack, locals: seq<Slot>, funcs: seq<Fn>)
    requires a.Some? ==> InI64(a.value)
    requires Run(1, c, 0, Cons(Int64(0), stack), locals, funcs)
          == if a.None? then Traps(Reached) else Done(Cons(Int64(a.value), Cons(Int64(0), stack)), locals)
    ensures Run(1, ([Const64(0)] + c) + [Sub64], 0, stack, locals, funcs)
         == if a.None? then Traps(Reached) else Done(Cons(Int64(Wrap64(-a.value)), stack), locals)
  {
    hide Run, Int64, Wrap64, InI64;
    AtConst64(1, [Const64(0)], 0, 0, stack, locals, funcs);
    AtEnd(1, [Const64(0)], Cons(Int64(0), stack), locals, funcs);
    TwoOrTrap([Const64(0)], c, [Sub64], Some(0), a, stack, locals, funcs);
    if a.Some? {
      ZeroInRange();
      WideOp(Sub, [Sub64], 0, a.value, false, stack, locals, funcs);
    }
  }

  /** Some negation in the expression meets the least number, which it leaves as it is. */
  predicate NegatesMin(e: Expr, w: IntWidth, vals: seq<int>)
    requires WellTyped(e, w, |vals|)
  {
    match e
    case Binary(_, l, r) => NegatesMin(l, w, vals) || NegatesMin(r, w, vals)
    case Negate(inner) => NegatesMin(inner, w, vals) || Eval64(inner, w, true, vals) == Some(I64_MIN)
    case _ => false
  }

  /** The checked value of an expression and of everything inside it is the exact one. */
  predicate ExactEverywhere(e: Expr, vals: seq<int>)
    requires WellTyped(e, I64, |vals|)
  {
    && Eval64(e, I64, true, vals) == Some(ExactOf(e, I64, vals))
    && match e
       case Binary(_, l, r) => ExactEverywhere(l, vals) && ExactEverywhere(r, vals)
       case Negate(inner) => ExactEverywhere(inner, vals)
       case _ => true
  }

  /** With checks, when a result is reached, everything in a signed 64-bit expression has
      its exact value if and only if no negation meets the least number: negation is not
      checked. */
  lemma {:induction false} ExactUnlessMin(e: Expr, vals: seq<int>)
    requires WellTyped(e, I64, |vals|) && Eval64(e, I64, true, vals).Some?
    requires forall x :: 0 <= x < |vals| ==> Fits(I64, vals[x])
    ensures ExactEverywhere(e, vals) <==> !NegatesMin(e, I64, vals)
    decreases e
  {
    match e
    case Binary(_, l, r) =>
      ExactUnlessMin(l, vals);
      ExactUnlessMin(r, vals);
      if !NegatesMin(e, I64, vals) {
        CheckedResultIsExact(e, vals);
      }
    case Negate(inner) =>
      ExactUnlessMin(inner, vals);
      if !NegatesMin(e, I64, vals) {
        CheckedResultIsExact(e, vals);
      } else if Eval64(inner, I64, true, vals) == Some(I64_MIN) {
        Wraps(-I64_MIN);
      }
    case _ => CheckedResultIsExact(e, vals);
  }

  // ---- Unsigned 64-bit expressions.

  /** What unsigned checked arithmetic should give; a negation wraps. */
  function EvalUnsigned(e: Expr, vals: seq<int>): Option<nat>
    requires WellTyped(e, U64, |vals|)
  {
    match e
    case Lit(n) => Some(n % TWO64)
    case Var(x) => Some(vals[x] % TWO64)
    case Binary(op, l, r) =>
      var a, b := EvalUnsigned(l, vals), EvalUnsigned(r, vals);
      if a.None? || b.None? || !(0 <= Exact(op, a.value, b.value) < TWO64) then None
      else Some(Exact(op, a.value, b.value))
    case Negate(inner) =>
      var a := EvalUnsigned(inner, vals);
      if a.None? then None else Some((TWO64 - a.value) % TWO64)
  }

  /** What the checked code gives, read as an unsigned number. */
  function EvalAsUnsigned(e: Expr, vals: seq<int>): Option<nat>
    requires WellTyped(e, U64, |vals|)
  {
    var v := Eval64(e, U64, true, vals);
    if v.None? then None else Some(v.value % TWO64)
  }

  /** When the signed check is the right one for these unsigned operands. */
  predicate UnsignedRight(op: Arith, x: nat, y: nat) {
    match op
    case Add => SumRight(x, y)
    case Sub => DifferenceRight(x, y)
    case Mul => ProductRight(x, y)
  }

  predicate RightEverywhere(e: Expr, vals: seq<int>)
    requires WellTyped(e, U64, |vals|)
  {
    match e
    case Binary(op, l, r) =>
      && RightEverywhere(l, vals) && RightEverywhere(r, vals)
      && (EvalUnsigned(l, vals).Some? && EvalUnsigned(r, vals).Some? ==>
            UnsignedRight(op, EvalUnsigned(l, vals).value, EvalUnsigned(r, vals).value))
    case Negate(inner) => RightEverywhere(inner, vals)
    case _ => true
  }

  predicate UnsignedEverywhere(e: Expr, vals: seq<int>)
    requires WellTyped(e, U64, |vals|)
  {
    && EvalAsUnsigned(e, vals) == EvalUnsigned(e, vals)
    && match e
       case Binary(_, l, r) => UnsignedEverywhere(l, vals) && UnsignedEverywhere(r, vals)
       case Negate(inner) => UnsignedEverywhere(inner, vals)
       case _ => true
  }

  /** The checked code of an unsigned expression does what unsigned checks should do,
      in it and everywhere inside, if and only if at every operator whose operands are
      reached the signed check is the right one for them. */
  lemma {:induction false} UnsignedWhenRight(e: Expr, vals: seq<int>)
    requires WellTyped(e, U64, |vals|)
    ensures UnsignedEverywhere(e, vals) <==> RightEverywhere(e, vals)
    decreases e
  {
    match e
    case Lit(n) => WrapBits(n);
    case Var(x) => WrapBits(vals[x]);
    case Binary(op, l, r) =>
      UnsignedWhenRight(l, vals);
      UnsignedWhenRight(r, vals);
      if UnsignedEverywhere(l, vals) && UnsignedEverywhere(r, vals) {
        UnsignedOperator(op, l, r, vals);
      }
    case Negate(inner) =>
      UnsignedWhenRight(inner, vals);
      if UnsignedEverywhere(inner, vals) && EvalUnsigned(inner, vals).Some? {
        UnsignedNegation(inner, vals);
      }
  }

  lemma WrapBits(n: int)
    ensures Wrap64(n) % TWO64 == n % TWO64
  {
    WrappedBits(n);
  }

  lemma UnsignedNegation(inner: Expr, vals: seq<int>)
    requires WellTyped(Negate(inner), U64, |vals|) && EvalUnsigned(inner, vals).Some?
    requires EvalAsUnsigned(inner, vals) == EvalUnsigned(inner, vals)
    ensures EvalAsUnsigned(Negate(inner), vals) == EvalUnsigned(Negate(inner), vals)
  {
    hide Eval64, EvalUnsigned, Wrap64;
    var v := Eval64(inner, U64, true, vals).value;
    WrapBits(-v);
    NegatedBits(v);
    NegateEval(inner, U64, true, vals);
    NegateUnsigned(inner, vals);
  }

  lemma NegateUnsigned(e: Expr, vals: seq<int>)
    requires WellTyped(e, U64, |vals|) && WellTyped(Negate(e), U64, |vals|)
    ensures var a := EvalUnsigned(e, vals);
            EvalUnsigned(Negate(e), vals) == if a.None? then None else Some((TWO64 - a.value) % TWO64)
  {
  }

  lemma NegatedBits(v: int)
    ensures (TWO64 - v % TWO64) % TWO64 == (-v) % TWO64
  {
    var q, r := v / TWO64, v % TWO64;
    assert v == TWO64 * q + r;
    Shift(TWO64 - r, TWO64, -q - 1);
  }

  /** One operator: its signed check does what an unsigned one should. */
  lemma UnsignedOperator(op: Arith, l: Expr, r: Expr, vals: seq<int>)
    requires WellTyped(Binary(op, l, r), U64, |vals|)
    requires EvalAsUnsigned(l, vals) == EvalUnsigned(l, vals) && EvalAsUnsigned(r, vals) == EvalUnsigned(r, vals)
    ensures EvalAsUnsigned(Binary(op, l, r), vals) == EvalUnsigned(Binary(op, l, r), vals) <==>
            (EvalUnsigned(l, vals).Some? && EvalUnsigned(r, vals).Some? ==>
               UnsignedRight(op, EvalUnsigned(l, vals).value, EvalUnsigned(r, vals).value))
  {
    hide Exact, UnsignedRight;
    if EvalUnsigned(l, vals).Some? && EvalUnsigned(r, vals).Some? {
      var a, b := Eval64(l, U64, true, vals).value, Eval64(r, U64, true, vals).value;
      EvalInRange(l, U64, true, vals);
      EvalInRange(r, U64, true, vals);
      ReadSigned(a);
      ReadSigned(b);
      WrapBits(Exact(op, a, b));
      RightWhenAgree(op, a % TWO64, b % TWO64);
    }
  }

  lemma ReadSigned(a: int)
    requires InI64(a)
    ensures S64(W64(a % TWO64)) == a
  {
  }

  /** The signed check on two patterns against the unsigned one on the same patterns. */
  lemma RightWhenAgree(op: Arith, x: nat, y: nat)
    requires x < TWO64 && y < TWO64
    ensures var n, u := Exact(op, S64(W64(x)), S64(W64(y))), Exact(op, x, y);
            ((if !InI64(n) then None else Some(n % TWO64)) == (if 0 <= u < TWO64 then Some(u) else None))
            <==> UnsignedRight(op, x, y)
  {
    match op
    case Add => SumBits(x, y);
    case Sub => DifferenceBits(x, y);
    case Mul =>
      SignedFits(x, y);
      UnsignedFits(x, y);
      WrapsExact(Mul, W64(x), W64(y));
      if x * y < TWO64 {
        ModUnique(x * y, TWO64, 0, x * y);
      }
  }

  lemma SumBits(x: nat, y: nat)
    requires x < TWO64 && y < TWO64
    ensures var n := S64(W64(x)) + S64(W64(y));
            ((if !InI64(n) then None else Some(n % TWO64)) == (if x + y < TWO64 then Some(x + y) else None))
            <==> SumRight(x, y)
  {
    WrapsExact(Add, W64(x), W64(y));
    if x + y < TWO64 {
      ModUnique(x + y, TWO64, 0, x + y);
    }
  }

  lemma DifferenceBits(x: nat, y: nat)
    requires x < TWO64 && y < TWO64
    ensures var n := S64(W64(x)) - S64(W64(y));
            ((if !InI64(n) then None else Some(n % TWO64)) == (if y <= x then Some(x - y) else None))
            <==> DifferenceRight(x, y)
  {
    WrapsExact(Sub, W64(x), W64(y));
    if y <= x {
      ModUnique(x - y, TWO64, 0, x - y);
    }
  }

  /** A signed 64-bit result that is reached is the exact one, unless a negation met the
      least number. */
  lemma {:induction false} CheckedResultIsExact(e: Expr, vals: seq<int>)
    requires WellTyped(e, I64, |vals|) && Eval64(e, I64, true, vals).Some? && !NegatesMin(e, I64, vals)
    requires forall x :: 0 <= x < |vals| ==> Fits(I64, vals[x])
    ensures Eval64(e, I64, true, vals).value == ExactOf(e, I64, vals)
    decreases e
  {
    match e
    case Lit(n) => Wraps(n);
    case Var(x) => Wraps(vals[x]);
    case Binary(op, l, r) =>
      CheckedResultIsExact(l, vals);
      CheckedResultIsExact(r, vals);
      Wraps(Exact(op, ExactOf(l, I64, vals), ExactOf(r, I64, vals)));
    case Negate(inner) =>
      CheckedResultIsExact(inner, vals);
      EvalInRange(inner, I64, true, vals);
      Wraps(-ExactOf(inner, I64, vals));
  }

  lemma NegatedMin()
    ensures Eval64(Negate(Lit(I64_MIN)), I64, true, []) == Some(I64_MIN)
  {
    Wraps(I64_MIN);
    Wraps(-I64_MIN);
  }

  lemma ZeroInRange()
    ensures InI64(0)
  {
  }

  // ---- The compiler.

  /** Generated functions, each made at most once. */
  class Compiler {
    const checkOverflows: bool
    var functions: seq<Fn>
    var checked: map<Arith, nat>

    ghost predicate Valid()
      reads this
    {
      forall op :: op in checked ==> checked[op] < |functions| && functions[checked[op]] == Body(op)
    }

    constructor (checkOverflows: bool)
      ensures Valid() && functions == [] && checked == map[] && this.checkOverflows == checkOverflows
    {
      this.checkOverflows := checkOverflows;
      functions, checked := [], map[];
    }

    /** The index of the checked operation; its function is added on first use. */
    method GetOrCreateChecked(op: Arith) returns (idx: nat)
      requires Valid()
      modifies this
      ensures Valid() && idx < |functions| && functions[idx] == Body(op)
      ensures functions == if op in old(checked) then old(functions) else old(functions) + [Body(op)]
      ensures op in checked && checked == old(checked)[op := idx]
    {
      if op in checked {
        return checked[op];
      }
      idx := |functions|;
      functions := functions + [Body(op)];
      checked := checked[op := idx];
    }

    /** Narrow results are put back into canonical form. */
    method EmitTruncate(w: IntWidth) returns (code: seq<Op>)
      ensures code == TruncateCode(w)
    {
      code := [];
      match w {
        case I8 =>
          code := code + [Const32(24)] + [Shl32];
          code := code + [Const32(24)] + [ShrS32];
        case I16 =>
          code := code + [Const32(16)] + [Shl32];
          code := code + [Const32(16)] + [ShrS32];
        case U8 => code := code + [Const32(0xFF)] + [And32];
        case U16 => code := code + [Const32(0xFFFF)] + [And32];
        case _ =>
      }
    }

    /** Code for an expression: run with its variables in canonical form, it leaves the
        canonical form of the exact result; at 64 bits with checks it leaves the exact
        result of every step, or traps. */
    method VisitArith(e: Expr, w: IntWidth) returns (code: seq<Op>)
      requires Valid()
      modifies this
      ensures Valid() && old(functions) <= functions
      ensures Computes(code, e, w, checkOverflows, functions)
      decreases e
    {
      hide Computes;
      match e {
        case Lit(n) =>
          code := [if Is64Bit(w) then Const64(n) else Const32(n)];
          LitComputes(n, w, checkOverflows, functions);
        case Var(x) =>
          code := [Get(x)];
          VarComputes(x, w, checkOverflows, functions);
        case Binary(op, l, r) =>
          var lhs := VisitArith(l, w);
          ghost var funcs := functions;
          var rhs := VisitArith(r, w);
          ghost var funcs' := functions;
          ComputesMore(lhs, l, w, checkOverflows, funcs, functions);
          if Is64Bit(w) {
            var last := EmitWide(op);
            code := (lhs + rhs) + last;
            ComputesMore(lhs, l, w, checkOverflows, funcs, functions);
            ComputesMore(rhs, r, w, checkOverflows, funcs', functions);
            BinaryWide(op, l, r, lhs, rhs, last, w, checkOverflows, functions);
          } else {
            var truncate := EmitTruncate(w);
            code := (lhs + rhs) + ([Op32Of(op)] + truncate);
            BinaryNarrow(op, l, r, lhs, rhs, w, checkOverflows, functions);
          }
        case Negate(inner) =>
          var operand := VisitArith(inner, w);
          if Is64Bit(w) {
            code := ([Const64(0)] + operand) + [Sub64];
            NegateWide(inner, operand, w, checkOverflows, functions);
          } else {
            var truncate := EmitTruncate(w);
            code := ([Const32(0)] + operand) + ([Sub32] + truncate);
            NegateNarrow(inner, operand, w, checkOverflows, functions);
          }
      }
    }

    /** The 64-bit operator: a call when overflows are checked. */
    method EmitWide(op: Arith) returns (code: seq<Op>)
      requires Valid()
      modifies this
      ensures Valid() && old(functions) <= functions
      ensures if checkOverflows then |code| == 1 && code[0].Call? && code[0].f < |functions| && functions[code[0].f] == Body(op)
              else code == [Op64Of(op)]
    {
      if checkOverflows {
        var idx := GetOrCreateChecked(op);
        code := [Call(idx)];
      } else {
        code := [Op64Of(op)];
      }
    }
  }
}
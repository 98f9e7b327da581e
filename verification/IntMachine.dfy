/** A machine for the integer instructions that arithmetic compiles to, after section
    4.3.2 of the WebAssembly Core Specification: wrapping arithmetic on bit patterns,
    truncating division that traps, and calls of generated functions. */
module IntMachine {
  import opened Wasm

  datatype Op =
    | Get(x: nat) | Tee(x: nat) | Const32(n: int) | Const64(n: int)
    | Add64 | Sub64 | Mul64 | DivS64 | Xor64 | Eq64 | Ne64 | LtS64 | GeS64
    | Add32 | Sub32 | Mul32 | And32 | Or32 | Ne32 | Shl32 | ShrS32
    | If(body: seq<Op>) | Unreachable | Call(f: nat)

  /** A function of two 64-bit parameters, with further 64-bit locals. */
  datatype Fn = Fn(extra: nat, body: seq<Op>)

  datatype Stack = Nil | Cons(top: Slot, rest: Stack)

  datatype Trap = Reached | DivideByZero | DivideOverflow

  datatype Outcome = Done(stack: Stack, locals: seq<Slot>) | Traps(t: Trap) | Invalid

  // ---- Numbers.

  function Signed(bits: nat, modulus: nat): int {
    if bits < modulus / 2 then bits else bits - modulus
  }

  function S64(s: Slot): int { Signed(s.bits, TWO64) }

  function Int64(n: int): Slot { W64(n % TWO64) }

  function Int32(n: int): Slot { W32(n % TWO32) }

  predicate InI64(n: int) { -(TWO64 / 2) <= n < TWO64 / 2 }

  function Pow2(n: nat): nat {
    if n == 0 then 1 else 2 * Pow2(n - 1)
  }

  function Bit(b: bool): nat { if b then 1 else 0 }

  /** Bitwise operators on n-bit patterns. */
  function XorBits(a: nat, b: nat, n: nat): nat {
    if n == 0 then 0 else Bit((a % 2 == 1) != (b % 2 == 1)) + 2 * XorBits(a / 2, b / 2, n - 1)
  }

  function AndBits(a: nat, b: nat, n: nat): nat {
    if n == 0 then 0 else Bit(a % 2 == 1 && b % 2 == 1) + 2 * AndBits(a / 2, b / 2, n - 1)
  }

  function OrBits(a: nat, b: nat, n: nat): nat {
    if n == 0 then 0 else Bit(a % 2 == 1 || b % 2 == 1) + 2 * OrBits(a / 2, b / 2, n - 1)
  }

  predicate BitAt(a: nat, i: nat) {
    if i == 0 then a % 2 == 1 else BitAt(a / 2, i - 1)
  }

  /** Each bit of the result depends on the same bits of the operands. */
  lemma {:induction false} BitsExact(a: nat, b: nat, n: nat, i: nat)
    requires i < n
    ensures BitAt(XorBits(a, b, n), i) <==> BitAt(a, i) != BitAt(b, i)
    ensures BitAt(AndBits(a, b, n), i) <==> BitAt(a, i) && BitAt(b, i)
    ensures BitAt(OrBits(a, b, n), i) <==> BitAt(a, i) || BitAt(b, i)
    decreases n
  {
    Doubled((a % 2 == 1) != (b % 2 == 1), XorBits(a / 2, b / 2, n - 1));
    Doubled(a % 2 == 1 && b % 2 == 1, AndBits(a / 2, b / 2, n - 1));
    Doubled(a % 2 == 1 || b % 2 == 1, OrBits(a / 2, b / 2, n - 1));
    hide Bit;
    if i > 0 {
      BitsExact(a / 2, b / 2, n - 1, i - 1);
    }
  }

  lemma Doubled(b: bool, x: nat)
    ensures ((Bit(b) + 2 * x) % 2 == 1 <==> b) && (Bit(b) + 2 * x) / 2 == x
  {
  }

  function Abs(n: int): nat { if n < 0 then -n else n }

  /** Division that rounds toward zero. */
  function TruncDiv(a: int, b: int): int
    requires b != 0
  {
    if (a < 0) == (b < 0) then Abs(a) / Abs(b) else -(Abs(a) / Abs(b))
  }

  // ---- Steps.

  datatype Result = Value(s: Slot) | Trapped(t: Trap) | BadType

  function Op64(op: Op, a: Slot, b: Slot): Result
    requires a.W64? && b.W64?
  {
    match op
    case Add64 => Value(Int64(a.bits + b.bits))
    case Sub64 => Value(Int64(a.bits - b.bits))
    case Mul64 => Value(Int64(a.bits * b.bits))
    case DivS64 =>
      if b.bits == 0 then Trapped(DivideByZero)
      else if S64(b) == 0 then BadType
      else if !InI64(TruncDiv(S64(a), S64(b))) then Trapped(DivideOverflow)
      else Value(Int64(TruncDiv(S64(a), S64(b))))
    case Xor64 => Value(W64(XorBits(a.bits, b.bits, 64)))
    case Eq64 => Value(Truth(a.bits == b.bits))
    case Ne64 => Value(Truth(a.bits != b.bits))
    case LtS64 => Value(Truth(S64(a) < S64(b)))
    case GeS64 => Value(Truth(S64(a) >= S64(b)))
    case _ => BadType
  }

  function Op32(op: Op, a: Slot, b: Slot): Result
    requires a.W32? && b.W32?
  {
    match op
    case Add32 => Value(Int32(a.bits + b.bits))
    case Sub32 => Value(Int32(a.bits - b.bits))
    case Mul32 => Value(Int32(a.bits * b.bits))
    case And32 => Value(W32(AndBits(a.bits, b.bits, 32)))
    case Or32 => Value(W32(OrBits(a.bits, b.bits, 32)))
    case Ne32 => Value(Truth(a.bits != b.bits))
    case Shl32 => Value(Int32(a.bits * Pow2(b.bits % 32)))
    case ShrS32 => if Pow2(b.bits % 32) == 0 then BadType else Value(Int32(Signed(a.bits, TWO32) / Pow2(b.bits % 32)))
    case _ => BadType
  }

  function Apply(op: Op, a: Slot, b: Slot): Result {
    if a.W64? && b.W64? then Op64(op, a, b) else if a.W32? && b.W32? then Op32(op, a, b) else BadType
  }

  /** One instruction. Generated functions call nothing: level 0. */
  function StepOp(level: nat, op: Op, stack: Stack, locals: seq<Slot>, funcs: seq<Fn>): Outcome
    decreases 2 * level + 1, op, 0
  {
    match op
    case Get(x) => if x < |locals| then Done(Cons(locals[x], stack), locals) else Invalid
    case Tee(x) =>
      if x < |locals| && stack.Cons? && SameKind(stack.top, locals[x])
      then Done(stack, locals[x := stack.top]) else Invalid
    case Const32(n) => Done(Cons(Int32(n), stack), locals)
    case Const64(n) => Done(Cons(Int64(n), stack), locals)
    case Unreachable => Traps(Reached)
    case If(body) =>
      if !stack.Cons? || !stack.top.W32? then Invalid
      else if stack.top.bits == 0 then Done(stack.rest, locals)
      else Run(level, body, 0, stack.rest, locals, funcs)
    case Call(f) =>
      if level == 0 || f >= |funcs| || !stack.Cons? || !stack.rest.Cons? then Invalid
      else
        var r := Invoke(level, funcs[f], stack.rest.top, stack.top, funcs);
        if !r.Done? then r else if r.stack.Nil? then Invalid else Done(Cons(r.stack.top, stack.rest.rest), locals)
    case _ =>
      if !stack.Cons? || !stack.rest.Cons? then Invalid
      else
        match Apply(op, stack.rest.top, stack.top)
        case Value(s) => Done(Cons(s, stack.rest.rest), locals)
        case Trapped(t) => Traps(t)
        case BadType => Invalid
  }

  /** Run from position pc to the end. */
  function Run(level: nat, code: seq<Op>, pc: nat, stack: Stack, locals: seq<Slot>, funcs: seq<Fn>): Outcome
    requires pc <= |code|
    decreases 2 * level + 1, code, |code| - pc
  {
    if pc == |code| then Done(stack, locals)
    else
      var next := StepOp(level, code[pc], stack, locals, funcs);
      if next.Done? then Run(level, code, pc + 1, next.stack, next.locals, funcs) else next
  }

  function Zeros(n: nat): (r: seq<Slot>)
    ensures |r| == n && forall i :: 0 <= i < n ==> r[i] == W64(0)
  {
    seq(n, i => W64(0))
  }

  /** Call a generated function. */
  function Invoke(level: nat, f: Fn, x: Slot, y: Slot, funcs: seq<Fn>): Outcome
    requires level > 0
    decreases 2 * level
  {
    Run(level - 1, f.body, 0, Nil, [x, y] + Zeros(f.extra), funcs)
  }

  // ---- Running code in parts.

  lemma {:induction false} RunShifted(level: nat, a: seq<Op>, b: seq<Op>, pc: nat, stack: Stack, locals: seq<Slot>, funcs: seq<Fn>)
    requires pc <= |b|
    ensures Run(level, a + b, |a| + pc, stack, locals, funcs) == Run(level, b, pc, stack, locals, funcs)
    decreases |b| - pc
  {
    if pc < |b| {
      assert (a + b)[|a| + pc] == b[pc];
      var next := StepOp(level, b[pc], stack, locals, funcs);
      if next.Done? {
        RunShifted(level, a, b, pc + 1, next.stack, next.locals, funcs);
      }
    }
  }

  /** Code in two parts. */
  lemma {:induction false} RunConcat(level: nat, a: seq<Op>, b: seq<Op>, pc: nat, stack: Stack, locals: seq<Slot>, funcs: seq<Fn>)
    requires pc <= |a|
    ensures var r := Run(level, a, pc, stack, locals, funcs);
            Run(level, a + b, pc, stack, locals, funcs)
            == if r.Done? then Run(level, b, 0, r.stack, r.locals, funcs) else r
    decreases |a| - pc
  {
    if pc == |a| {
      RunShifted(level, a, b, 0, stack, locals, funcs);
    } else {
      assert (a + b)[pc] == a[pc];
      var next := StepOp(level, a[pc], stack, locals, funcs);
      if next.Done? {
        RunConcat(level, a, b, pc + 1, next.stack, next.locals, funcs);
      }
    }
  }

  // ---- Single steps.

  lemma AtGet(level: nat, code: seq<Op>, pc: nat, x: nat, stack: Stack, locals: seq<Slot>, funcs: seq<Fn>)
    requires pc < |code| && code[pc] == Get(x) && x < |locals|
    ensures Run(level, code, pc, stack, locals, funcs) == Run(level, code, pc + 1, Cons(locals[x], stack), locals, funcs)
  {
  }

  lemma AtTee(level: nat, code: seq<Op>, pc: nat, x: nat, s: Slot, rest: Stack, locals: seq<Slot>, funcs: seq<Fn>)
    requires pc < |code| && code[pc] == Tee(x) && x < |locals| && SameKind(s, locals[x])
    ensures Run(level, code, pc, Cons(s, rest), locals, funcs)
         == Run(level, code, pc + 1, Cons(s, rest), locals[x := s], funcs)
  {
  }

  lemma AtConst64(level: nat, code: seq<Op>, pc: nat, n: int, stack: Stack, locals: seq<Slot>, funcs: seq<Fn>)
    requires pc < |code| && code[pc] == Const64(n)
    ensures Run(level, code, pc, stack, locals, funcs) == Run(level, code, pc + 1, Cons(Int64(n), stack), locals, funcs)
  {
  }

  lemma AtConst32(level: nat, code: seq<Op>, pc: nat, n: int, stack: Stack, locals: seq<Slot>, funcs: seq<Fn>)
    requires pc < |code| && code[pc] == Const32(n)
    ensures Run(level, code, pc, stack, locals, funcs) == Run(level, code, pc + 1, Cons(Int32(n), stack), locals, funcs)
  {
  }

  lemma AtOp(level: nat, code: seq<Op>, pc: nat, a: Slot, b: Slot, s: Slot, rest: Stack, locals: seq<Slot>, funcs: seq<Fn>)
    requires pc < |code| && Apply(code[pc], a, b) == Value(s)
    ensures Run(level, code, pc, Cons(b, Cons(a, rest)), locals, funcs)
         == Run(level, code, pc + 1, Cons(s, rest), locals, funcs)
  {
    hide AndBits, OrBits, XorBits, Pow2, TruncDiv;
  }

  lemma AtIf(level: nat, code: seq<Op>, pc: nat, body: seq<Op>, b: bool, rest: Stack, locals: seq<Slot>, funcs: seq<Fn>)
    requires pc < |code| && code[pc] == If(body)
    requires b ==> Run(level, body, 0, rest, locals, funcs) == Traps(Reached)
    ensures Run(level, code, pc, Cons(Truth(b), rest), locals, funcs)
         == if b then Traps(Reached) else Run(level, code, pc + 1, rest, locals, funcs)
  {
  }

  lemma AtUnreachable(level: nat, stack: Stack, locals: seq<Slot>, funcs: seq<Fn>)
    ensures Run(level, [Unreachable], 0, stack, locals, funcs) == Traps(Reached)
  {
  }

  lemma AtEnd(level: nat, code: seq<Op>, stack: Stack, locals: seq<Slot>, funcs: seq<Fn>)
    ensures Run(level, code, |code|, stack, locals, funcs) == Done(stack, locals)
  {
  }

  /** What the operators compute. */
  lemma Applied64(a: Slot, b: Slot)
    requires a.W64? && b.W64?
    ensures Apply(Add64, a, b) == Value(Int64(a.bits + b.bits)) && Apply(Sub64, a, b) == Value(Int64(a.bits - b.bits))
    ensures Apply(Mul64, a, b) == Value(Int64(a.bits * b.bits))
    ensures Apply(Xor64, a, b) == Value(W64(XorBits(a.bits, b.bits, 64)))
    ensures Apply(Eq64, a, b) == Value(Truth(a == b)) && Apply(Ne64, a, b) == Value(Truth(a != b))
    ensures Apply(LtS64, a, b) == Value(Truth(S64(a) < S64(b))) && Apply(GeS64, a, b) == Value(Truth(S64(a) >= S64(b)))
  {
    hide AndBits, OrBits, XorBits, Pow2, TruncDiv;
  }

  lemma AppliedFlags(a: bool, b: bool)
    ensures Apply(And32, Truth(a), Truth(b)) == Value(Truth(a && b))
    ensures Apply(Or32, Truth(a), Truth(b)) == Value(Truth(a || b))
    ensures Apply(Ne32, Truth(a), Int32(0)) == Value(Truth(a))
  {
    hide AndBits, OrBits, XorBits, Pow2, TruncDiv;
    FlagAnd(a, b, 32);
  }

  // ---- Bits.

  lemma {:induction false} Pow2Positive(n: nat)
    ensures Pow2(n) > 0
    decreases n
  {
    if n > 0 {
      Pow2Positive(n - 1);
    }
  }

  /** The sign bit of an exclusive or: set when the signs differ. */
  lemma {:induction false} XorSign(a: nat, b: nat, n: nat)
    requires n > 0 && a < Pow2(n) && b < Pow2(n)
    ensures XorBits(a, b, n) < Pow2(n)
    ensures XorBits(a, b, n) >= Pow2(n - 1) <==> ((a >= Pow2(n - 1)) != (b >= Pow2(n - 1)))
    decreases n
  {
    if n > 1 {
      XorSign(a / 2, b / 2, n - 1);
    } else {
      assert Pow2(0) == 1 && Pow2(1) == 2;
    }
  }

  lemma Pow2Values()
    ensures Pow2(8) == 0x100 && Pow2(16) == 0x1_0000 && Pow2(24) == 0x100_0000
    ensures Pow2(31) == TWO32 / 2 && Pow2(32) == TWO32 && Pow2(63) == TWO64 / 2 && Pow2(64) == TWO64
  {
    PowSum(4, 4);
    assert Pow2(4) == 2 * (2 * Pow2(2));
    PowSum(8, 8);
    PowSum(16, 8);
    PowSum(16, 16);
    PowSum(32, 32);
    assert Pow2(32) == 2 * Pow2(31) && Pow2(64) == 2 * Pow2(63);
  }

  lemma {:induction false} PowSum(a: nat, b: nat)
    ensures Pow2(a + b) == Pow2(a) * Pow2(b)
    decreases a
  {
    if a > 0 {
      PowSum(a - 1, b);
      TwiceProduct(Pow2(a - 1), Pow2(b));
      assert a - 1 + b == a + b - 1;
    }
  }

  lemma TwiceProduct(p: int, q: int)
    ensures 2 * (p * q) == (2 * p) * q
  {
  }

  /** A mask of k ones keeps the low k bits. */
  lemma {:induction false} MaskKeeps(a: nat, k: nat, n: nat)
    requires k <= n
    ensures Pow2(k) > 0 && AndBits(a, Pow2(k) - 1, n) == a % Pow2(k)
    decreases n
  {
    Pow2Positive(k);
    if k == 0 {
      AndZero(a, n);
    } else {
      MaskKeeps(a / 2, k - 1, n - 1);
      MaskStep(a, Pow2(k - 1), n);
    }
  }

  lemma MaskStep(a: nat, p: nat, n: nat)
    requires p > 0 && n > 0 && AndBits(a / 2, p - 1, n - 1) == (a / 2) % p
    ensures AndBits(a, 2 * p - 1, n) == a % (2 * p)
  {
    HalfMod(a, p);
    assert (2 * p - 1) / 2 == p - 1 && (2 * p - 1) % 2 == 1;
  }

  lemma {:induction false} AndZero(a: nat, n: nat)
    ensures AndBits(a, 0, n) == 0 && AndBits(0, a, n) == 0 && OrBits(0, 0, n) == 0
    decreases n
  {
    if n > 0 {
      AndZero(a / 2, n - 1);
    }
  }

  lemma HalfMod(a: nat, p: nat)
    requires p > 0
    ensures a % (2 * p) == a % 2 + 2 * ((a / 2) % p)
  {
    var d := a / 2;
    var q, m := d / p, d % p;
    assert d == p * q + m;
    assert a == 2 * d + a % 2;
    assert 2 * (p * q) == (2 * p) * q;
    ModUnique(a, 2 * p, q, 2 * m + a % 2);
  }

  /** Division with remainder is unique. */
  lemma ModUnique(x: int, b: nat, q: int, r: nat)
    requires r < b && x == b * q + r
    ensures x % b == r && x / b == q
  {
    assert b * (x / b) + x % b == x;
    if x / b < q {
      Apart(b, x / b, q);
    } else if x / b > q {
      Apart(b, q, x / b);
    }
  }

  lemma {:induction false} Apart(b: nat, i: int, j: int)
    requires i < j
    ensures b * i + b <= b * j
    decreases j - i
  {
    if i + 1 < j {
      Apart(b, i, j - 1);
    }
  }

  /** Boolean flags under the bitwise operators. */
  lemma FlagAnd(a: bool, b: bool, n: nat)
    requires n > 0
    ensures AndBits(Bit(a), Bit(b), n) == Bit(a && b) && OrBits(Bit(a), Bit(b), n) == Bit(a || b)
  {
    AndZero(0, n - 1);
  }

  // ---- Congruence.

  /** Wrapping forgets only multiples of the modulus. */
  lemma AddMod(a: int, b: int, m: nat)
    requires m > 0
    ensures (a % m + b % m) % m == (a + b) % m
  {
    var qa, qb := a / m, b / m;
    var s := a % m + b % m;
    assert a + b == m * (qa + qb) + s by {
      assert a == m * qa + a % m && b == m * qb + b % m;
      assert m * (qa + qb) == m * qa + m * qb;
    }
    Shift(s, m, qa + qb);
  }

  lemma SubMod(a: int, b: int, m: nat)
    requires m > 0
    ensures (a % m - b % m) % m == (a - b) % m
  {
    var qa, qb := a / m, b / m;
    var s := a % m - b % m;
    assert a - b == m * (qa - qb) + s by {
      assert a == m * qa + a % m && b == m * qb + b % m;
      assert m * (qa - qb) == m * qa - m * qb;
    }
    Shift(s, m, qa - qb);
  }

  lemma MulMod(a: int, b: int, m: nat)
    requires m > 0
    ensures ((a % m) * (b % m)) % m == (a * b) % m
  {
    assert a == m * (a / m) + a % m && b == m * (b / m) + b % m;
    MulCongruent(m, a / m, a % m, b / m, b % m);
  }

  lemma MulCongruent(m: nat, qa: int, ra: int, qb: int, rb: int)
    requires m > 0
    ensures ((m * qa + ra) * (m * qb + rb)) % m == (ra * rb) % m
  {
    Expand(m, qa, ra, qb, rb);
    Shift(ra * rb, m, qa * (m * qb + rb) + ra * qb);
  }

  lemma Expand(m: int, qa: int, ra: int, qb: int, rb: int)
    ensures (m * qa + ra) * (m * qb + rb) == m * (qa * (m * qb + rb) + ra * qb) + ra * rb
  {
    var b := m * qb + rb;
    assert (m * qa + ra) * b == m * (qa * b) + ra * b;
    assert ra * b == m * (ra * qb) + ra * rb;
  }

  lemma Shift(s: int, m: nat, q: int)
    requires m > 0
    ensures (m * q + s) % m == s % m
  {
    assert s == m * (s / m) + s % m;
    assert m * q + m * (s / m) == m * (q + s / m);
    ModUnique(m * q + s, m, q + s / m, s % m);
  }
}

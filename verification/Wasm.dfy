/** The WebAssembly instructions that the modelled parts of the code generator
    emit, and a step semantics for straight-line code (section 4.4 of the
    WebAssembly Core Specification). */
module Wasm {
  import opened Options

  datatype ValType = V32 | V64 | VF32 | VF64

  /** A stack slot, local or global: 32 or 64 bits, as an unsigned number. */
  datatype Slot = W32(bits: nat) | W64(bits: nat)

  const TWO32: nat := 0x1_0000_0000
  const TWO64: nat := 0x1_0000_0000_0000_0000

  predicate OfType(s: Slot, t: ValType) {
    (s.W32? && t.V32? && s.bits < TWO32) || (s.W64? && t.V64? && s.bits < TWO64)
  }

  predicate OfTypes(ss: seq<Slot>, ts: seq<ValType>) {
    |ss| == |ts| && forall i :: 0 <= i < |ss| ==> OfType(ss[i], ts[i])
  }

  /** `CallHost` is a call of an imported function that returns nothing; `ArmBody` and
      `ElseBody` stand for the code of a match arm or else block. */
  datatype Instr =
    | LocalGet(x: nat)
    | LocalSet(x: nat)
    | GlobalGet(x: nat)
    | GlobalSet(x: nat)
    | I32Const(n: int)
    | I64Const(n: int)
    | I32Eq
    | I32Eqz
    | I32Ne
    | I64Eq
    | I32WrapI64
    | I64ExtendI32U
    | ArmBody(arm: nat, env: map<string, nat>)
    | ElseBody
    | CallHost(name: string, args: nat)

  datatype Event = Entered(arm: nat, env: map<string, nat>) | EnteredElse | HostCalled(name: string, args: seq<Slot>)

  datatype State = State(stack: seq<Slot>, locals: seq<Slot>, globals: seq<Slot>, events: seq<Event>)

  function Push(st: State, s: Slot): State {
    st.(stack := st.stack + [s])
  }

  function Top(st: State): Slot
    requires st.stack != []
  {
    st.stack[|st.stack| - 1]
  }

  function Drop(st: State, n: nat): State
    requires n <= |st.stack|
  {
    st.(stack := st.stack[..|st.stack| - n])
  }

  predicate SameKind(a: Slot, b: Slot) {
    a.W32? == b.W32?
  }

  function Truth(b: bool): Slot {
    W32(if b then 1 else 0)
  }

  /** One instruction; None where validation would have rejected it. */
  function Step(i: Instr, st: State): Option<State> {
    match i
    case LocalGet(x) => if x < |st.locals| then Some(Push(st, st.locals[x])) else None
    case LocalSet(x) =>
      if x < |st.locals| && st.stack != [] && SameKind(Top(st), st.locals[x])
      then Some(Drop(st, 1).(locals := st.locals[x := Top(st)])) else None
    case GlobalGet(x) => if x < |st.globals| then Some(Push(st, st.globals[x])) else None
    case GlobalSet(x) =>
      if x < |st.globals| && st.stack != [] && SameKind(Top(st), st.globals[x])
      then Some(Drop(st, 1).(globals := st.globals[x := Top(st)])) else None
    case I32Const(n) => Some(Push(st, W32(n % TWO32)))
    case I64Const(n) => Some(Push(st, W64(n % TWO64)))
    case I32Eq =>
      if |st.stack| >= 2 && Top(st).W32? && Top(Drop(st, 1)).W32?
      then Some(Push(Drop(st, 2), Truth(Top(st) == Top(Drop(st, 1))))) else None
    case I32Ne =>
      if |st.stack| >= 2 && Top(st).W32? && Top(Drop(st, 1)).W32?
      then Some(Push(Drop(st, 2), Truth(Top(st) != Top(Drop(st, 1))))) else None
    case I64Eq =>
      if |st.stack| >= 2 && Top(st).W64? && Top(Drop(st, 1)).W64?
      then Some(Push(Drop(st, 2), Truth(Top(st) == Top(Drop(st, 1))))) else None
    case I32Eqz =>
      if st.stack != [] && Top(st).W32? then Some(Push(Drop(st, 1), Truth(Top(st).bits == 0))) else None
    case I32WrapI64 =>
      if st.stack != [] && Top(st).W64? then Some(Push(Drop(st, 1), W32(Top(st).bits % TWO32))) else None
    case I64ExtendI32U =>
      if st.stack != [] && Top(st).W32? then Some(Push(Drop(st, 1), W64(Top(st).bits))) else None
    case ArmBody(arm, env) => Some(st.(events := st.events + [Entered(arm, env)]))
    case ElseBody => Some(st.(events := st.events + [EnteredElse]))
    case CallHost(name, n) =>
      if n <= |st.stack|
      then Some(Drop(st, n).(events := st.events + [HostCalled(name, st.stack[|st.stack| - n..])])) else None
  }

  function Exec(code: seq<Instr>, st: State): Option<State> {
    if code == [] then Some(st)
    else
      var next := Step(code[0], st);
      if next.None? then None else Exec(code[1..], next.value)
  }

  lemma {:induction false} ExecConcat(a: seq<Instr>, b: seq<Instr>, st: State)
    ensures Exec(a + b, st) == if Exec(a, st).None? then None else Exec(b, Exec(a, st).value)
  {
    if a == [] {
      assert a + b == b;
    } else {
      assert (a + b)[1..] == a[1..] + b;
      var next := Step(a[0], st);
      if next.Some? {
        ExecConcat(a[1..], b, next.value);
      }
    }
  }

  /** Code that runs, then more code that runs. */
  lemma ExecThen(a: seq<Instr>, b: seq<Instr>, st: State, mid: State)
    requires Exec(a, st) == Some(mid)
    ensures Exec(a + b, st) == Exec(b, mid)
  {
    ExecConcat(a, b, st);
  }

  /** The value on top is stored, the rest of the stack stays. */
  lemma GlobalSetSteps(x: nat, st: State, s: Slot)
    requires x < |st.globals| && SameKind(s, st.globals[x])
    ensures Step(GlobalSet(x), Push(st, s)) == Some(st.(globals := st.globals[x := s]))
  {
    assert Push(st, s).stack[..|st.stack|] == st.stack;
  }

  lemma StepThen(i: Instr, rest: seq<Instr>, st: State, next: State)
    requires Step(i, st) == Some(next)
    ensures Exec([i] + rest, st) == Exec(rest, next)
  {
    assert ([i] + rest)[1..] == rest;
  }

  /** Reading a local, and storing what is on top. */
  lemma GetSteps(x: nat, st: State)
    requires x < |st.locals|
    ensures Step(LocalGet(x), st) == Some(Push(st, st.locals[x]))
  {
  }

  lemma SetSteps(x: nat, st: State, s: Slot)
    requires x < |st.locals| && SameKind(s, st.locals[x])
    ensures Step(LocalSet(x), Push(st, s)) == Some(st.(locals := st.locals[x := s]))
  {
    assert Push(st, s).stack[..|st.stack|] == st.stack;
  }

  lemma WrapSteps(st: State, s: Slot)
    requires s.W64?
    ensures Step(I32WrapI64, Push(st, s)) == Some(Push(st, W32(s.bits % TWO32)))
  {
    assert Push(st, s).stack[..|st.stack|] == st.stack;
  }

  lemma EqzSteps(st: State, s: Slot)
    requires s.W32?
    ensures Step(I32Eqz, Push(st, s)) == Some(Push(st, Truth(s.bits == 0)))
  {
    assert Push(st, s).stack[..|st.stack|] == st.stack;
  }

  lemma ExecOne(i: Instr, st: State)
    ensures Exec([i], st) == Step(i, st)
  {
    assert [i][1..] == [];
  }
}

/** Building an enum value on the stack: discriminant, promoted payload, zeros
    (`enum_promote` and the constructor call in `lib.rs`). */
module EnumConstruct {
  import opened Options
  import opened StarTypes
  import opened Wasm
  import opened Flatten
  import opened EnumEncoding
  import opened Columns
  import opened EnumBranch
  import opened MatchLeaf
  import opened Emission
  import opened MatchEmit

  // ---- Promotion of one argument.

  /** Store n slots into locals of the joined types, the last one first. */
  function SetCode(from: seq<ValType>, to: seq<ValType>, first: nat, n: nat): seq<Instr>
    requires n <= |from| && n <= |to|
  {
    if n == 0 then []
    else
      (if from[n - 1].V32? && to[n - 1].V64? then [I64ExtendI32U] else []) + [LocalSet(first + n - 1)]
      + SetCode(from, to, first, n - 1)
  }

  function GetCode(first: nat, n: nat): seq<Instr> {
    if n == 0 then [] else GetCode(first, n - 1) + [LocalGet(first + n - 1)]
  }

  /** The number of leading slots that need no promotion. */
  function Common(from: seq<ValType>, to: seq<ValType>): (k: nat)
    ensures k <= |from| && k <= |to| && from[..k] == to[..k]
  {
    if from == [] || to == [] || from[0] != to[0] then 0
    else
      var k := Common(from[1..], to[1..]);
      assert from[..k + 1] == [from[0]] + from[1..][..k] && to[..k + 1] == [to[0]] + to[1..][..k];
      k + 1
  }

  function PromoteCode(from: seq<ValType>, to: seq<ValType>, first: nat): seq<Instr>
    requires |from| == |to|
  {
    var k := Common(from, to);
    SetCode(from[k..], to[k..], first, |from| - k) + GetCode(first, |from| - k)
  }

  function Promoted(ss: seq<Slot>, to: seq<ValType>): (r: seq<Slot>)
    requires |ss| == |to|
    ensures |r| == |ss|
  {
    seq(|ss|, i requires 0 <= i < |ss| => Promote(ss[i], to[i]))
  }

  lemma ExtendSteps(st: State, s: Slot)
    requires s.W32?
    ensures Step(I64ExtendI32U, Push(st, s)) == Some(Push(st, W64(s.bits)))
  {
    assert Push(st, s).stack[..|st.stack|] == st.stack;
  }

  lemma SetOne(s: Slot, from: ValType, to: ValType, x: nat, rest: seq<Instr>, st: State)
    requires OfType(s, from) && x < |st.locals| && OfType(st.locals[x], to) && (to == from || (from.V32? && to.V64?))
    ensures Exec((if from.V32? && to.V64? then [I64ExtendI32U] else []) + [LocalSet(x)] + rest, Push(st, s))
         == Exec(rest, st.(locals := st.locals[x := Promote(s, to)]))
  {
    SetSteps(x, st, Promote(s, to));
    if from.V32? && to.V64? {
      ExtendSteps(st, s);
      SetWide(s, x, rest, st);
    } else {
      SetPlain(s, x, rest, st);
    }
  }

  lemma SetPlain(s: Slot, x: nat, rest: seq<Instr>, st: State)
    requires x < |st.locals| && Step(LocalSet(x), Push(st, s)) == Some(st.(locals := st.locals[x := s]))
    ensures Exec([] + [LocalSet(x)] + rest, Push(st, s)) == Exec(rest, st.(locals := st.locals[x := s]))
  {
    hide Step, Push;
    StepThen(LocalSet(x), rest, Push(st, s), st.(locals := st.locals[x := s]));
    assert [] + [LocalSet(x)] + rest == [LocalSet(x)] + rest;
  }

  lemma SetWide(s: Slot, x: nat, rest: seq<Instr>, st: State)
    requires s.W32? && x < |st.locals|
    requires Step(I64ExtendI32U, Push(st, s)) == Some(Push(st, W64(s.bits)))
    requires Step(LocalSet(x), Push(st, W64(s.bits))) == Some(st.(locals := st.locals[x := W64(s.bits)]))
    ensures Exec([I64ExtendI32U] + [LocalSet(x)] + rest, Push(st, s)) == Exec(rest, st.(locals := st.locals[x := W64(s.bits)]))
  {
    hide Step, Push, Exec;
    StepThen(I64ExtendI32U, [LocalSet(x)] + rest, Push(st, s), Push(st, W64(s.bits)));
    StepThen(LocalSet(x), rest, Push(st, W64(s.bits)), st.(locals := st.locals[x := W64(s.bits)]));
    assert [I64ExtendI32U] + [LocalSet(x)] + rest == [I64ExtendI32U] + ([LocalSet(x)] + rest);
  }

  /** Storing: the stack loses the slots, the locals hold them promoted. */
  lemma {:induction false} SetRuns(from: seq<ValType>, to: seq<ValType>, first: nat, below: seq<Slot>, ss: seq<Slot>,
                                   st: State)
    requires OfTypes(ss, from) && |to| == |from| && Bounds(to, from) && Settable(st.locals, first, to)
    requires st.stack == below + ss
    ensures Exec(SetCode(from, to, first, |ss|), st)
         == Some(st.(stack := below, locals := Written(st.locals, first, Promoted(ss, to))))
    decreases |ss|
  {
    if ss == [] {
      assert below + ss == below;
      assert Written(st.locals, first, Promoted(ss, to)) == st.locals;
    } else {
      SetLast(from, to, first, below, ss, st);
    }
  }

  lemma {:induction false} SetLast(from: seq<ValType>, to: seq<ValType>, first: nat, below: seq<Slot>, ss: seq<Slot>, st: State)
    requires OfTypes(ss, from) && |to| == |from| && Bounds(to, from) && Settable(st.locals, first, to)
    requires st.stack == below + ss && ss != []
    ensures Exec(SetCode(from, to, first, |ss|), st)
         == Some(st.(stack := below, locals := Written(st.locals, first, Promoted(ss, to))))
    decreases |ss|, 0
  {
    hide Exec, Written, Step;
    var n := |ss| - 1;
    assert OfType(ss[n], from[n]) && OfType(st.locals[first + n], to[n]);
    assert to[n] == from[n] || (from[n].V32? && to[n].V64?);
    var base := st.(stack := below + ss[..n]);
    assert Push(base, ss[n]).stack == st.stack;
    assert Push(base, ss[n]) == st;
    var next := base.(locals := st.locals[first + n := Promote(ss[n], to[n])]);
    SetOne(ss[n], from[n], to[n], first + n, SetCode(from, to, first, n), base);
    SetPrefix(from, to, first, n);
    assert Settable(next.locals, first, to[..n]);
    SetRuns(from[..n], to[..n], first, below, ss[..n], next);
    WrittenLast(st.locals, first, Promoted(ss, to), n);
    assert Promoted(ss, to)[..n] == Promoted(ss[..n], to[..n]);
  }

  lemma {:induction false} SetPrefix(from: seq<ValType>, to: seq<ValType>, first: nat, n: nat)
    requires n <= |from| && n <= |to|
    ensures SetCode(from[..n], to[..n], first, n) == SetCode(from, to, first, n)
  {
    SetSame(from[..n], to[..n], from, to, first, n);
  }

  lemma {:induction false} SetSame(from: seq<ValType>, to: seq<ValType>, from': seq<ValType>, to': seq<ValType>, first: nat,
                                   n: nat)
    requires n <= |from| && n <= |to| && n <= |from'| && n <= |to'|
    requires forall i :: 0 <= i < n ==> from[i] == from'[i] && to[i] == to'[i]
    ensures SetCode(from, to, first, n) == SetCode(from', to', first, n)
  {
    if n > 0 {
      SetSame(from, to, from', to', first, n - 1);
    }
  }

  lemma WrittenLast(locals: seq<Slot>, first: nat, ss: seq<Slot>, n: nat)
    requires n + 1 == |ss| && first + |ss| <= |locals|
    ensures Written(locals[first + n := ss[n]], first, ss[..n]) == Written(locals, first, ss)
  {
  }

  lemma {:induction false} GetRuns(first: nat, ss: seq<Slot>, n: nat, st: State)
    requires Holds(st.locals, first, ss) && n <= |ss|
    ensures Exec(GetCode(first, n), st) == Some(st.(stack := st.stack + ss[..n]))
  {
    hide Step;
    if n == 0 {
      assert st.stack + ss[..0] == st.stack;
    } else {
      GetRuns(first, ss, n - 1, st);
      var mid := st.(stack := st.stack + ss[..n - 1]);
      ExecThen(GetCode(first, n - 1), [LocalGet(first + n - 1)], st, mid);
      GetSteps(first + n - 1, mid);
      ExecOne(LocalGet(first + n - 1), mid);
      assert st.stack + ss[..n - 1] + [ss[n - 1]] == st.stack + ss[..n];
    }
  }

  /** Promotion of an argument on top of the stack, whatever lies below. */
  lemma PromoteRuns(from: seq<ValType>, to: seq<ValType>, first: nat, below: seq<Slot>, ss: seq<Slot>, st: State)
    requires OfTypes(ss, from) && |to| == |from| && Bounds(to, from) && st.stack == below + ss
    requires Settable(st.locals, first, to[Common(from, to)..])
    ensures Exec(PromoteCode(from, to, first), st)
         == Some(st.(stack := below + Promoted(ss, to),
                     locals := Written(st.locals, first, Promoted(ss, to)[Common(from, to)..])))
  {
    hide *;
    var k := Common(from, to);
    CommonWithin(from, to);
    SlotsCount(ss, from);
    PromoteTail(from, to, first, below, ss, st, k);
    PromotedParts(ss, to, k);
    assert below + ss[..k] + Promoted(ss, to)[k..] == below + Promoted(ss, to);
  }

  lemma PromoteTail(from: seq<ValType>, to: seq<ValType>, first: nat, below: seq<Slot>, ss: seq<Slot>, st: State, k: nat)
    requires OfTypes(ss, from) && |to| == |from| == |ss| && Bounds(to, from) && st.stack == below + ss
    requires k == Common(from, to) <= |from| && Settable(st.locals, first, to[k..])
    ensures first + |Promoted(ss[k..], to[k..])| <= |st.locals| && Promoted(ss, to)[..k] == ss[..k]
    ensures Exec(PromoteCode(from, to, first), st)
         == Some(st.(stack := below + ss[..k] + Promoted(ss[k..], to[k..]),
                     locals := Written(st.locals, first, Promoted(ss[k..], to[k..]))))
  {
    hide Promote, OfType, Common, Exec, Settable, Bounds, Promoted, SetCode, GetCode, Written;
    PromoteCodeIs(from, to, first);
    assert below + ss == (below + ss[..k]) + ss[k..];
    TailFits(from, to, ss, k);
    RoomFor(st.locals, first, ss[k..], to[k..]);
    TailRuns(from[k..], to[k..], first, below + ss[..k], ss[k..], st);
  }

  lemma RoomFor(locals: seq<Slot>, first: nat, ss: seq<Slot>, to: seq<ValType>)
    requires |ss| == |to| && Settable(locals, first, to)
    ensures first + |Promoted(ss, to)| <= |locals|
  {
  }

  lemma CommonWithin(from: seq<ValType>, to: seq<ValType>)
    requires |to| == |from|
    ensures Common(from, to) <= |from|
  {
  }

  lemma SlotsCount(ss: seq<Slot>, ts: seq<ValType>)
    requires OfTypes(ss, ts)
    ensures |ss| == |ts|
  {
  }

  lemma PromoteCodeIs(from: seq<ValType>, to: seq<ValType>, first: nat)
    requires |to| == |from|
    ensures var k := Common(from, to);
            PromoteCode(from, to, first) == SetCode(from[k..], to[k..], first, |from| - k) + GetCode(first, |from| - k)
  {
    hide Common, SetCode, GetCode;
  }

  lemma TailRuns(from: seq<ValType>, to: seq<ValType>, first: nat, below: seq<Slot>, ss: seq<Slot>, st: State)
    requires OfTypes(ss, from) && |to| == |from| && Bounds(to, from) && st.stack == below + ss
    requires Settable(st.locals, first, to)
    ensures Exec(SetCode(from, to, first, |from|) + GetCode(first, |from|), st)
         == Some(st.(stack := below + Promoted(ss, to), locals := Written(st.locals, first, Promoted(ss, to))))
  {
    hide Exec, Bounds, Promoted, SetCode, GetCode, Written, Holds;
    SetRuns(from, to, first, below, ss, st);
    var moved := Promoted(ss, to);
    var mid := st.(stack := below, locals := Written(st.locals, first, moved));
    HoldsWritten(st.locals, first, moved);
    GetRuns(first, moved, |ss|, mid);
    ExecThen(SetCode(from, to, first, |ss|), GetCode(first, |ss|), st, mid);
    assert moved[..|ss|] == moved;
  }

  lemma PromotedParts(ss: seq<Slot>, to: seq<ValType>, k: nat)
    requires |ss| == |to| && k <= |ss| && Promoted(ss, to)[..k] == ss[..k]
    ensures Promoted(ss, to) == ss[..k] + Promoted(ss, to)[k..]
    ensures Promoted(ss, to)[k..] == Promoted(ss[k..], to[k..])
  {
  }

  lemma TailFits(from: seq<ValType>, to: seq<ValType>, ss: seq<Slot>, k: nat)
    requires OfTypes(ss, from) && |to| == |from| && Bounds(to, from) && k <= |ss| && from[..k] == to[..k]
    ensures OfTypes(ss[k..], from[k..]) && Bounds(to[k..], from[k..])
    ensures Promoted(ss, to)[..k] == ss[..k]
  {
    forall i | 0 <= i < k
      ensures Promoted(ss, to)[i] == ss[i]
    {
      assert from[..k][i] == to[..k][i];
      assert OfType(ss[i], from[i]);
    }
  }

  // ---- The whole constructor.

  function PayloadAt(ts: seq<Type>, i: nat): nat
    requires i <= |ts|
  {
    |CoreTypesAll(ts[..i])|
  }

  /** The joined slots that the i-th argument takes. */
  function Target(joined: seq<ValType>, ts: seq<Type>, i: nat): seq<ValType>
    requires i < |ts| && PayloadAt(ts, i) + |CoreTypes(ts[i])| <= |joined|
  {
    joined[PayloadAt(ts, i)..PayloadAt(ts, i) + |CoreTypes(ts[i])|]
  }

  predicate Roomy(joined: seq<ValType>, ts: seq<Type>) {
    forall i :: 0 <= i < |ts| ==> PayloadAt(ts, i) + |CoreTypes(ts[i])| <= |joined|
  }

  /** The types of the locals that promoting the first i arguments declares. */
  function Scratch(joined: seq<ValType>, ts: seq<Type>, i: nat): seq<ValType>
    requires i <= |ts| && Roomy(joined, ts)
  {
    if i == 0 then []
    else Scratch(joined, ts, i - 1) + Target(joined, ts, i - 1)[Common(CoreTypes(ts[i - 1]), Target(joined, ts, i - 1))..]
  }

  function ZeroCode(ts: seq<ValType>): seq<Instr> {
    if ts == [] then [] else [if ts[0].V64? then I64Const(0) else I32Const(0)] + ZeroCode(ts[1..])
  }

  function BuildUpTo(variant: nat, joined: seq<ValType>, ts: seq<Type>, args: seq<seq<Instr>>, n0: nat, i: nat): seq<Instr>
    requires i <= |ts| == |args| && Roomy(joined, ts)
  {
    if i == 0 then [I32Const(variant)]
    else
      BuildUpTo(variant, joined, ts, args, n0, i - 1) + args[i - 1]
      + PromoteCode(CoreTypes(ts[i - 1]), Target(joined, ts, i - 1), n0 + |Scratch(joined, ts, i - 1)|)
  }

  function BuildCode(variant: nat, joined: seq<ValType>, ts: seq<Type>, args: seq<seq<Instr>>, n0: nat): seq<Instr>
    requires |ts| == |args| && Roomy(joined, ts) && |CoreTypesAll(ts)| <= |joined|
  {
    BuildUpTo(variant, joined, ts, args, n0, |ts|) + ZeroCode(joined[|CoreTypesAll(ts)|..])
  }

  // ---- The method.

  lemma {:induction false} CorePrefix(ts: seq<Type>, i: nat)
    requires i <= |ts|
    ensures |CoreTypesAll(ts[..i])| <= |CoreTypesAll(ts)|
    ensures i < |ts| ==> CoreTypesAll(ts[..i + 1]) == CoreTypesAll(ts[..i]) + CoreTypes(ts[i])
    decreases |ts| - i
  {
    if i < |ts| {
      CorePrefix(ts, i + 1);
      assert ts[..i + 1][..i] == ts[..i];
    } else {
      assert ts[..i] == ts;
    }
  }

  lemma IsRoomy(joined: seq<ValType>, ts: seq<Type>)
    requires |CoreTypesAll(ts)| <= |joined|
    ensures Roomy(joined, ts)
  {
    forall i | 0 <= i < |ts|
      ensures PayloadAt(ts, i) + |CoreTypes(ts[i])| <= |joined|
    {
      CorePrefix(ts, i);
      CorePrefix(ts, i + 1);
    }
  }

  method CountCommon(from: seq<ValType>, to: seq<ValType>) returns (k: nat)
    requires |from| == |to|
    ensures k == Common(from, to)
  {
    k := 0;
    while k < |from| && from[k] == to[k]
      invariant k <= |from| && k + Common(from[k..], to[k..]) == Common(from, to)
    {
      assert from[k..][1..] == from[k + 1..] && to[k..][1..] == to[k + 1..];
      k := k + 1;
    }
  }

  method Sets(from: seq<ValType>, to: seq<ValType>, first: nat) returns (code: seq<Instr>)
    requires |from| == |to| && Bounds(to, from)
    ensures code == SetCode(from, to, first, |from|)
  {
    hide SetCode;
    var i: nat := |from|;
    code := [];
    while i > 0
      invariant i <= |from| && code + SetCode(from, to, first, i) == SetCode(from, to, first, |from|)
    {
      SetStep(from, to, first, i);
      i := i - 1;
      assert to[i] == from[i] || (from[i].V32? && to[i].V64?);
      var widen := if from[i].V32? && to[i].V64? then [I64ExtendI32U] else [];
      ghost var rest := SetCode(from, to, first, i);
      assert code + (widen + [LocalSet(first + i)] + rest) == code + (widen + [LocalSet(first + i)]) + rest;
      code := code + (widen + [LocalSet(first + i)]);
    }
    EmptySet(from, to, first, code);
  }

  lemma EmptySet(from: seq<ValType>, to: seq<ValType>, first: nat, code: seq<Instr>)
    ensures code + SetCode(from, to, first, 0) == code
  {
  }

  lemma SetStep(from: seq<ValType>, to: seq<ValType>, first: nat, n: nat)
    requires 0 < n <= |from| && n <= |to|
    ensures SetCode(from, to, first, n)
         == (if from[n - 1].V32? && to[n - 1].V64? then [I64ExtendI32U] else []) + [LocalSet(first + (n - 1))]
            + SetCode(from, to, first, n - 1)
  {
  }

  method Gets(first: nat, n: nat) returns (code: seq<Instr>)
    ensures code == GetCode(first, n)
  {
    code := [];
    for i := 0 to n
      invariant code == GetCode(first, i)
    {
      code := code + [LocalGet(first + i)];
    }
  }

  /** Promote the argument on top of the stack into the next joined slots. The
      original's error branch is never taken. */
  method EnumPromote(func: StFunction, from: seq<ValType>, to: seq<ValType>) returns (code: seq<Instr>)
    requires func.Valid() && |from| == |to| && Bounds(to, from)
    modifies func
    ensures func.Valid() && func.Types() == old(func.Types()) + to[Common(from, to)..]
    ensures code == PromoteCode(from, to, |old(func.Types())|)
  {
    hide Common, SetCode, GetCode;
    var k := CountCommon(from, to);
    var first := func.AddLocals(to[k..]);
    TailBounds(from, to, k);
    var sets := Sets(from[k..], to[k..], first);
    var gets := Gets(first, |from| - k);
    code := sets + gets;
  }

  lemma TailBounds(from: seq<ValType>, to: seq<ValType>, k: nat)
    requires |from| == |to| && Bounds(to, from) && k <= |from|
    ensures Bounds(to[k..], from[k..])
  {
  }

  method Zeros(ts: seq<ValType>) returns (code: seq<Instr>)
    ensures code == ZeroCode(ts)
  {
    code := [];
    for i := 0 to |ts|
      invariant code + ZeroCode(ts[i..]) == ZeroCode(ts)
    {
      var zero := if ts[i].V64? then I64Const(0) else I32Const(0);
      assert ts[i..][1..] == ts[i + 1..];
      assert code + ([zero] + ZeroCode(ts[i + 1..])) == code + [zero] + ZeroCode(ts[i + 1..]);
      code := code + [zero];
    }
  }

  /** Emit a constructor call, given the code of its arguments. */
  method ConstructVariant(func: StFunction, bb: nat, t: Type, variant: nat, args: seq<seq<Instr>>)
    requires func.Valid() && IsOpen(func.cfg.blocks, bb)
    requires t.Enum? && variant < |t.variants| && |args| == |PayloadTypes(t.variants[variant])|
    modifies func, func.cfg
    ensures func.Valid() && Roomy(JoinVariants(t.variants), PayloadTypes(t.variants[variant]))
    ensures |CoreTypesAll(PayloadTypes(t.variants[variant]))| <= |JoinVariants(t.variants)|
    ensures func.Types() == old(func.Types()) + Scratch(JoinVariants(t.variants), PayloadTypes(t.variants[variant]), |args|)
    ensures Wrote(old(func.cfg.blocks), func.cfg.blocks, bb,
                  BuildCode(variant, JoinVariants(t.variants), PayloadTypes(t.variants[variant]), args, old(|func.Types()|)))
  {
    hide *;
    ghost var types0 := func.Types();
    var ts := PayloadTypes(t.variants[variant]);
    var destTypes := StarToCoreTypes([], t);
    EnumCore(t, variant);
    JoinedRoom(destTypes, t, variant);
    var joined := destTypes[1..];
    var code := [I32Const(variant)];
    var used: nat := 0;
    BuildStart(types0, variant, joined, ts, args);
    for i := 0 to |args|
      invariant func.Valid() && func.cfg.blocks == old(func.cfg.blocks)
      invariant Built(types0, func.Types(), variant, joined, ts, args, i, used, code)
    {
      code, used := BuildNext(func, types0, variant, joined, ts, args, i, used, code);
    }
    BuildEnd(types0, func.Types(), variant, joined, ts, args, used, code);
    var zeros := Zeros(joined[used..]);
    WriteCode(func, bb, code + zeros);
  }

  lemma JoinedRoom(dest: seq<ValType>, t: Type, k: nat)
    requires t.Enum? && k < |t.variants| && dest == [] + CoreTypes(t) && CoreTypes(t) == [V32] + JoinVariants(t.variants)
    requires Bounds(JoinVariants(t.variants), CoreTypesAll(PayloadTypes(t.variants[k])))
    ensures dest != [] && dest[1..] == JoinVariants(t.variants)
    ensures Roomy(JoinVariants(t.variants), PayloadTypes(t.variants[k]))
    ensures |CoreTypesAll(PayloadTypes(t.variants[k]))| <= |JoinVariants(t.variants)|
  {
    hide CoreTypes, JoinVariants, JoinAll, CoreTypesAll;
    IsRoomy(JoinVariants(t.variants), PayloadTypes(t.variants[k]));
    BoundsLength(JoinVariants(t.variants), CoreTypesAll(PayloadTypes(t.variants[k])));
    assert dest == [V32] + JoinVariants(t.variants);
  }

  lemma BoundsLength(joined: seq<ValType>, ts: seq<ValType>)
    requires Bounds(joined, ts)
    ensures |ts| <= |joined|
  {
  }

  /** What has been emitted, and declared, for i arguments. */
  ghost predicate Built(types0: seq<ValType>, types: seq<ValType>, variant: nat, joined: seq<ValType>, ts: seq<Type>,
                        args: seq<seq<Instr>>, i: nat, used: nat, code: seq<Instr>)
    requires i <= |ts| == |args| && Roomy(joined, ts) && Bounds(joined, CoreTypesAll(ts))
  {
    && types == types0 + Scratch(joined, ts, i)
    && used == |CoreTypesAll(ts[..i])| && used <= |joined|
    && code == BuildUpTo(variant, joined, ts, args, |types0|, i)
  }

  lemma BuildStart(types0: seq<ValType>, variant: nat, joined: seq<ValType>, ts: seq<Type>, args: seq<seq<Instr>>)
    requires |ts| == |args| && Roomy(joined, ts) && Bounds(joined, CoreTypesAll(ts))
    ensures Built(types0, types0, variant, joined, ts, args, 0, 0, [I32Const(variant)])
  {
  }

  lemma BuildEnd(types0: seq<ValType>, types: seq<ValType>, variant: nat, joined: seq<ValType>, ts: seq<Type>,
                 args: seq<seq<Instr>>, used: nat, code: seq<Instr>)
    requires |ts| == |args| && Roomy(joined, ts) && Bounds(joined, CoreTypesAll(ts))
    requires Built(types0, types, variant, joined, ts, args, |ts|, used, code)
    ensures types == types0 + Scratch(joined, ts, |ts|) && used == |CoreTypesAll(ts)| <= |joined|
    ensures code + ZeroCode(joined[used..]) == BuildCode(variant, joined, ts, args, |types0|)
  {
    assert ts[..|ts|] == ts;
  }

  lemma BuildStep(types0: seq<ValType>, types: seq<ValType>, variant: nat, joined: seq<ValType>, ts: seq<Type>,
                  args: seq<seq<Instr>>, i: nat, used: nat, code: seq<Instr>, first: nat)
    requires i < |ts| == |args| && Roomy(joined, ts) && Bounds(joined, CoreTypesAll(ts))
    requires Built(types0, types, variant, joined, ts, args, i, used, code)
    requires used + |CoreTypes(ts[i])| <= |joined| && first == |types| && |Target(joined, ts, i)| == |CoreTypes(ts[i])|
    ensures Built(types0, types + Target(joined, ts, i)[Common(CoreTypes(ts[i]), Target(joined, ts, i))..], variant, joined,
                  ts, args, i + 1, used + |CoreTypes(ts[i])|,
                  code + args[i] + PromoteCode(CoreTypes(ts[i]), Target(joined, ts, i), first))
  {
    hide *;
    CorePrefix(ts, i);
    TargetIs(joined, ts, i);
    TargetRoom(joined, ts, i);
    BuiltParts(types0, types, variant, joined, ts, args, i, used, code);
    ScratchStep(joined, ts, i);
    BuildUpToStep(variant, joined, ts, args, |types0|, i);
    assert first == |types0| + |Scratch(joined, ts, i)|;
    Assoc(types0, Scratch(joined, ts, i), Target(joined, ts, i)[Common(CoreTypes(ts[i]), Target(joined, ts, i))..]);
    IsBuilt(types0, types0 + Scratch(joined, ts, i + 1), variant, joined, ts, args, i + 1, |CoreTypesAll(ts[..i + 1])|,
            BuildUpTo(variant, joined, ts, args, |types0|, i + 1));
  }

  lemma TargetRoom(joined: seq<ValType>, ts: seq<Type>, i: nat)
    requires i < |ts| && Roomy(joined, ts)
    ensures PayloadAt(ts, i) + |CoreTypes(ts[i])| <= |joined|
  {
  }

  lemma Assoc<T>(a: seq<T>, b: seq<T>, c: seq<T>)
    ensures a + b + c == a + (b + c)
  {
  }

  lemma BuiltParts(types0: seq<ValType>, types: seq<ValType>, variant: nat, joined: seq<ValType>, ts: seq<Type>,
                   args: seq<seq<Instr>>, i: nat, used: nat, code: seq<Instr>)
    requires i <= |ts| == |args| && Roomy(joined, ts) && Bounds(joined, CoreTypesAll(ts))
    requires Built(types0, types, variant, joined, ts, args, i, used, code)
    ensures types == types0 + Scratch(joined, ts, i) && used == |CoreTypesAll(ts[..i])| && used <= |joined|
    ensures code == BuildUpTo(variant, joined, ts, args, |types0|, i)
  {
  }

  lemma IsBuilt(types0: seq<ValType>, types: seq<ValType>, variant: nat, joined: seq<ValType>, ts: seq<Type>,
                args: seq<seq<Instr>>, i: nat, used: nat, code: seq<Instr>)
    requires i <= |ts| == |args| && Roomy(joined, ts) && Bounds(joined, CoreTypesAll(ts))
    requires types == types0 + Scratch(joined, ts, i) && used == |CoreTypesAll(ts[..i])| && used <= |joined|
    requires code == BuildUpTo(variant, joined, ts, args, |types0|, i)
    ensures Built(types0, types, variant, joined, ts, args, i, used, code)
  {
  }

  lemma ScratchStep(joined: seq<ValType>, ts: seq<Type>, i: nat)
    requires i < |ts| && Roomy(joined, ts)
    ensures Scratch(joined, ts, i + 1)
         == Scratch(joined, ts, i) + Target(joined, ts, i)[Common(CoreTypes(ts[i]), Target(joined, ts, i))..]
  {
  }

  lemma BuildUpToStep(variant: nat, joined: seq<ValType>, ts: seq<Type>, args: seq<seq<Instr>>, n0: nat, i: nat)
    requires i < |ts| == |args| && Roomy(joined, ts)
    ensures BuildUpTo(variant, joined, ts, args, n0, i + 1)
         == BuildUpTo(variant, joined, ts, args, n0, i) + args[i]
            + PromoteCode(CoreTypes(ts[i]), Target(joined, ts, i), n0 + |Scratch(joined, ts, i)|)
  {
    hide PromoteCode, CoreTypes, Target, Scratch, PayloadAt;
  }

  lemma TargetFacts(types0: seq<ValType>, types: seq<ValType>, variant: nat, joined: seq<ValType>, ts: seq<Type>,
                    args: seq<seq<Instr>>, i: nat, used: nat, code: seq<Instr>)
    requires i < |ts| == |args| && Roomy(joined, ts) && Bounds(joined, CoreTypesAll(ts))
    requires Built(types0, types, variant, joined, ts, args, i, used, code)
    ensures used + |CoreTypes(ts[i])| <= |joined|
    ensures Target(joined, ts, i) == joined[used..used + |CoreTypes(ts[i])|]
    ensures Bounds(Target(joined, ts, i), CoreTypes(ts[i]))
  {
    TargetIs(joined, ts, i);
  }

  /** Emit one argument. */
  method BuildNext(func: StFunction, ghost types0: seq<ValType>, ghost variant: nat, joined: seq<ValType>, ts: seq<Type>,
                   args: seq<seq<Instr>>, i: nat, used: nat, code: seq<Instr>) returns (code': seq<Instr>, used': nat)
    requires func.Valid() && i < |ts| == |args| && Roomy(joined, ts) && Bounds(joined, CoreTypesAll(ts))
    requires Built(types0, func.Types(), variant, joined, ts, args, i, used, code)
    modifies func
    ensures func.Valid()
    ensures Built(types0, func.Types(), variant, joined, ts, args, i + 1, used', code')
  {
    hide *;
    ghost var types := func.Types();
    TargetFacts(types0, types, variant, joined, ts, args, i, used, code);
    var from := StarToCoreTypes([], ts[i]);
    assert from == CoreTypes(ts[i]);
    var to := joined[used..used + |from|];
    var promote := EnumPromote(func, from, to);
    BuildStep(types0, types, variant, joined, ts, args, i, used, code, |types|);
    code', used' := code + args[i] + promote, used + |from|;
  }

  lemma EnumCore(t: Type, k: nat)
    requires t.Enum? && k < |t.variants|
    ensures CoreTypes(t) == [V32] + JoinVariants(t.variants)
    ensures Bounds(JoinVariants(t.variants), CoreTypesAll(PayloadTypes(t.variants[k])))
  {
    CasePayloadIs(t.variants[k]);
    JoinBounds(t.variants, k);
  }

  /** The argument's slots are bounded by their targets. */
  lemma TargetIs(joined: seq<ValType>, ts: seq<Type>, i: nat)
    requires i < |ts| && Bounds(joined, CoreTypesAll(ts)) && Roomy(joined, ts)
    ensures |CoreTypesAll(ts[..i])| + |CoreTypes(ts[i])| <= |joined|
    ensures Target(joined, ts, i) == joined[|CoreTypesAll(ts[..i])|..|CoreTypesAll(ts[..i])| + |CoreTypes(ts[i])|]
    ensures Bounds(Target(joined, ts, i), CoreTypes(ts[i]))
  {
    hide CoreTypes, CoreTypesAll, Bounds, Roomy;
    CorePrefix(ts, i);
    AllPrefix(ts, i + 1);
    PrefixSlice(CoreTypesAll(ts[..i]), CoreTypes(ts[i]), CoreTypesAll(ts));
    BoundsSlice(joined, CoreTypesAll(ts), |CoreTypesAll(ts[..i])|, |CoreTypes(ts[i])|);
  }

  lemma BoundsSlice(joined: seq<ValType>, all: seq<ValType>, q: nat, m: nat)
    requires Bounds(joined, all) && q + m <= |all|
    ensures q + m <= |joined| && Bounds(joined[q..q + m], all[q..q + m])
  {
  }

  // ---- What the code builds.

  /** Argument code pushes these slots, in any state that agrees with st0 on
      globals and on the first n locals. */
  ghost predicate ArgPushes(code: seq<Instr>, st0: State, n: nat, slots: seq<Slot>) {
    forall st :: AgreesOn(st0, st, n) ==> Exec(code, st) == Some(st.(stack := st.stack + slots))
  }

  predicate AgreesOn(st0: State, st: State, n: nat) {
    && |st.locals| == |st0.locals| && st.globals == st0.globals
    && forall x :: 0 <= x < n && x < |st0.locals| ==> st.locals[x] == st0.locals[x]
  }

  lemma {:induction false} FlatAllSlice(vs: seq<Value>, ts: seq<Type>, i: nat)
    requires HaveTypes(vs, ts) && i < |vs|
    ensures |FlatV(vs[i], ts[i])| == |CoreTypes(ts[i])|
    ensures |FlatAll(vs, ts)| == |CoreTypesAll(ts)| && PayloadAt(ts, i) + |CoreTypes(ts[i])| <= |CoreTypesAll(ts)|
    ensures FlatAll(vs, ts)[PayloadAt(ts, i)..PayloadAt(ts, i) + |CoreTypes(ts[i])|] == FlatV(vs[i], ts[i])
    decreases |vs|
  {
    hide FlatAll, FlatV, HasType, CoreTypes, CoreTypesAll, OfType;
    var n := |vs| - 1;
    SlotsTyped(vs, ts, i);
    CorePrefix(ts, i);
    assert HaveTypes(vs[..n], ts[..n]);
    FlatAllLast(vs, ts, n);
    if i < n {
      FlatAllSlice(vs[..n], ts[..n], i);
      assert ts[..n][..i] == ts[..i];
      SliceOfPrefix(FlatAll(vs[..n], ts[..n]), FlatV(vs[n], ts[n]), PayloadAt(ts, i), |CoreTypes(ts[i])|);
    }
  }

  lemma FlatAllLast(vs: seq<Value>, ts: seq<Type>, n: nat)
    requires HaveTypes(vs, ts) && n + 1 == |vs|
    ensures HaveTypes(vs[..n], ts[..n]) && HasType(vs[n], ts[n])
    ensures FlatAll(vs, ts) == FlatAll(vs[..n], ts[..n]) + FlatV(vs[n], ts[n])
    ensures |FlatAll(vs, ts)| == |CoreTypesAll(ts)| && |FlatAll(vs[..n], ts[..n])| == |CoreTypesAll(ts[..n])|
  {
    FlatAllTyped(vs, ts);
    FlatAllTyped(vs[..n], ts[..n]);
  }

  lemma SliceOfPrefix<T>(a: seq<T>, b: seq<T>, q: nat, m: nat)
    requires q + m <= |a|
    ensures (a + b)[q..q + m] == a[q..q + m]
  {
  }

  /** One more argument's joined slots. */
  lemma PromotedStep(vs: seq<Value>, ts: seq<Type>, joined: seq<ValType>, i: nat)
    requires HaveTypes(vs, ts) && i < |vs| && Roomy(joined, ts) && Bounds(joined, CoreTypesAll(ts))
    ensures |FlatV(vs[i], ts[i])| == |CoreTypes(ts[i])| && |CoreTypesAll(ts[..i + 1])| <= |joined|
    ensures PromoteAll(FlatAll(vs, ts), joined)[..PayloadAt(ts, i + 1)]
         == PromoteAll(FlatAll(vs, ts), joined)[..PayloadAt(ts, i)] + Promoted(FlatV(vs[i], ts[i]), Target(joined, ts, i))
  {
    hide FlatAll, FlatV, HasType, CoreTypes, CoreTypesAll, Bounds;
    FlatAllSlice(vs, ts, i);
    CorePrefix(ts, i);
    PromotedSlice(FlatAll(vs, ts), joined, PayloadAt(ts, i), |CoreTypes(ts[i])|);
  }

  lemma PromotedSlice(ss: seq<Slot>, joined: seq<ValType>, q: nat, m: nat)
    requires q + m <= |ss| && q + m <= |joined|
    ensures PromoteAll(ss, joined)[..q + m] == PromoteAll(ss, joined)[..q] + Promoted(ss[q..q + m], joined[q..q + m])
  {
    var all, part := PromoteAll(ss, joined), Promoted(ss[q..q + m], joined[q..q + m]);
    forall k | q <= k < q + m
      ensures all[k] == part[k - q]
    {
      assert ss[q..q + m][k - q] == ss[k] && joined[q..q + m][k - q] == joined[k];
    }
  }

  lemma {:induction false} ScratchPrefix(joined: seq<ValType>, ts: seq<Type>, i: nat)
    requires i <= |ts| && Roomy(joined, ts)
    ensures Scratch(joined, ts, i) <= Scratch(joined, ts, |ts|)
    decreases |ts| - i
  {
    if i < |ts| {
      ScratchPrefix(joined, ts, i + 1);
    }
  }

  lemma {:induction false} ZeroRuns(ts: seq<ValType>, st: State)
    requires NoFloat(ts)
    ensures Exec(ZeroCode(ts), st) == Some(st.(stack := st.stack + seq(|ts|, i requires 0 <= i < |ts| => Zero(ts[i]))))
    decreases |ts|
  {
    var zeros := seq(|ts|, i requires 0 <= i < |ts| => Zero(ts[i]));
    if ts == [] {
      assert st.stack + zeros == st.stack;
    } else {
      var one := if ts[0].V64? then I64Const(0) else I32Const(0);
      var next := Push(st, Zero(ts[0]));
      ZeroRuns(ts[1..], next);
      StepThen(one, ZeroCode(ts[1..]), st, next);
      var rest := seq(|ts[1..]|, i requires 0 <= i < |ts[1..]| => Zero(ts[1..][i]));
      assert zeros == [zeros[0]] + rest;
      assert st.stack + [zeros[0]] + rest == st.stack + zeros;
    }
  }

  /** The state after i arguments. */
  ghost predicate AfterArgs(variant: nat, joined: seq<ValType>, ts: seq<Type>, vs: seq<Value>, i: nat, n0: nat,
                            types: seq<ValType>, st0: State, st: State)
    requires HaveTypes(vs, ts) && i <= |ts| && Roomy(joined, ts) && |CoreTypesAll(ts[..i])| <= |joined|
  {
    && AgreesOn(st0, st, n0) && TypedLocals(st.locals, types) && st.events == st0.events
    && st.stack == st0.stack + [W32(variant % TWO32)] + PromoteAll(FlatAll(vs, ts), joined)[..PayloadAt(ts, i)]
  }

  lemma {:induction false} BuildRuns(variant: nat, joined: seq<ValType>, ts: seq<Type>, args: seq<seq<Instr>>,
                                     vs: seq<Value>, types0: seq<ValType>, types: seq<ValType>, st0: State, i: nat)
    returns (st: State)
    requires HaveTypes(vs, ts) && i <= |ts| == |args| && Roomy(joined, ts) && Bounds(joined, CoreTypesAll(ts))
    requires types0 + Scratch(joined, ts, |ts|) <= types && TypedLocals(st0.locals, types)
    requires forall k :: 0 <= k < |ts| ==> ArgPushes(args[k], st0, |types0|, FlatV(vs[k], ts[k]))
    ensures |CoreTypesAll(ts[..i])| <= |joined|
    ensures Exec(BuildUpTo(variant, joined, ts, args, |types0|, i), st0) == Some(st)
    ensures AfterArgs(variant, joined, ts, vs, i, |types0|, types, st0, st)
  {
    hide Exec, Scratch, BuildUpTo, FlatAll, FlatV, HasType, CoreTypes, CoreTypesAll, Bounds, TypedLocals, Roomy, ArgPushes,
         PromoteCode, AfterArgs, Target;
    if i == 0 {
      st := BuildNone(variant, joined, ts, args, vs, |types0|, types, st0);
    } else {
      var before := BuildRuns(variant, joined, ts, args, vs, types0, types, st0, i - 1);
      TargetIs(joined, ts, i - 1);
      BuildUpToStep(variant, joined, ts, args, |types0|, i - 1);
      st := OneArgRuns(variant, joined, ts, args[i - 1], vs, types0, types, st0, i - 1, before,
                       BuildUpTo(variant, joined, ts, args, |types0|, i - 1), CoreTypes(ts[i - 1]),
                       Target(joined, ts, i - 1), |types0| + |Scratch(joined, ts, i - 1)|, FlatV(vs[i - 1], ts[i - 1]));
    }
  }

  lemma BuildNone(variant: nat, joined: seq<ValType>, ts: seq<Type>, args: seq<seq<Instr>>, vs: seq<Value>, n0: nat,
                  types: seq<ValType>, st0: State) returns (st: State)
    requires HaveTypes(vs, ts) && |ts| == |args| && Roomy(joined, ts) && TypedLocals(st0.locals, types)
    ensures |CoreTypesAll(ts[..0])| <= |joined|
    ensures Exec(BuildUpTo(variant, joined, ts, args, n0, 0), st0) == Some(st)
    ensures AfterArgs(variant, joined, ts, vs, 0, n0, types, st0, st)
  {
    hide FlatAll, HasType, TypedLocals;
    st := Push(st0, W32(variant % TWO32));
    ExecOne(I32Const(variant), st0);
    assert PromoteAll(FlatAll(vs, ts), joined)[..0] == [];
  }

  lemma OneArgRuns(variant: nat, joined: seq<ValType>, ts: seq<Type>, arg: seq<Instr>, vs: seq<Value>,
                   types0: seq<ValType>, types: seq<ValType>, st0: State, i: nat, before: State, code: seq<Instr>,
                   from: seq<ValType>, to: seq<ValType>, first: nat, ss: seq<Slot>) returns (st: State)
    requires HaveTypes(vs, ts) && i < |ts| && Roomy(joined, ts) && Bounds(joined, CoreTypesAll(ts))
    requires types0 + Scratch(joined, ts, |ts|) <= types && first == |types0| + |Scratch(joined, ts, i)|
    requires from == CoreTypes(ts[i]) && to == Target(joined, ts, i) && ss == FlatV(vs[i], ts[i]) && |to| == |from|
    requires ArgPushes(arg, st0, |types0|, ss)
    requires |CoreTypesAll(ts[..i])| <= |joined| && Exec(code, st0) == Some(before)
    requires AfterArgs(variant, joined, ts, vs, i, |types0|, types, st0, before)
    ensures |CoreTypesAll(ts[..i + 1])| <= |joined|
    ensures Exec(code + arg + PromoteCode(from, to, first), st0) == Some(st)
    ensures AfterArgs(variant, joined, ts, vs, i + 1, |types0|, types, st0, st)
  {
    hide Exec, Scratch, FlatAll, FlatV, HasType, CoreTypes, CoreTypesAll, Bounds, TypedLocals, PromoteCode,
         PromoteAll, Promoted, Target, Common, Written, Settable, Roomy, OfType;
    TargetIs(joined, ts, i);
    PromotedStep(vs, ts, joined, i);
    SlotsTyped(vs, ts, i);
    var pushed := before.(stack := before.stack + ss);
    assert Exec(arg, before) == Some(pushed);
    ScratchReady(joined, ts, i, types0, types, from, to, ss, before.locals);
    PromoteRuns(from, to, first, before.stack, ss, pushed);
    st := pushed.(stack := before.stack + Promoted(ss, to),
                  locals := Written(before.locals, first, Promoted(ss, to)[Common(from, to)..]));
    ExecThen(code, arg, st0, before);
    ExecThen(code + arg, PromoteCode(from, to, first), st0, pushed);
    Assoc(st0.stack + [W32(variant % TWO32)], PromoteAll(FlatAll(vs, ts), joined)[..PayloadAt(ts, i)], Promoted(ss, to));
  }

  lemma SlotsTyped(vs: seq<Value>, ts: seq<Type>, i: nat)
    requires HaveTypes(vs, ts) && i < |vs|
    ensures OfTypes(FlatV(vs[i], ts[i]), CoreTypes(ts[i]))
  {
    FlatTyped(vs[i], ts[i]);
  }

  /** The locals for promotion are there, of the joined types, past all earlier ones. */
  lemma ScratchReady(joined: seq<ValType>, ts: seq<Type>, i: nat, types0: seq<ValType>, types: seq<ValType>,
                     from: seq<ValType>, to: seq<ValType>, ss: seq<Slot>, locals: seq<Slot>)
    requires i < |ts| && Roomy(joined, ts) && types0 + Scratch(joined, ts, |ts|) <= types && TypedLocals(locals, types)
    requires from == CoreTypes(ts[i]) && to == Target(joined, ts, i) && OfTypes(ss, from) && Bounds(to, from) && |to| == |from|
    ensures Settable(locals, |types0| + |Scratch(joined, ts, i)|, to[Common(from, to)..])
    ensures |types0| + |Scratch(joined, ts, i)| + |Promoted(ss, to)[Common(from, to)..]| <= |locals|
    ensures TypedLocals(Written(locals, |types0| + |Scratch(joined, ts, i)|, Promoted(ss, to)[Common(from, to)..]), types)
    ensures forall x :: 0 <= x < |types0| ==>
              Written(locals, |types0| + |Scratch(joined, ts, i)|, Promoted(ss, to)[Common(from, to)..])[x] == locals[x]
  {
    hide Scratch, CoreTypes, CoreTypesAll, Target, Common, Settable, TypedLocals;
    var k := Common(from, to);
    ScratchStep(joined, ts, i);
    ScratchPrefix(joined, ts, i + 1);
    var head := types0 + Scratch(joined, ts, i);
    assert head + to[k..] == types0 + Scratch(joined, ts, i + 1);
    assert head + to[k..] <= types;
    PrefixSlice(head, to[k..], types);
    PromotedOfTypes(ss, from, to);
    WrittenTyped(locals, types, |head|, Promoted(ss, to)[k..], to[k..]);
  }

  lemma PromotedOfTypes(ss: seq<Slot>, from: seq<ValType>, to: seq<ValType>)
    requires OfTypes(ss, from) && |to| == |from| && Bounds(to, from)
    ensures OfTypes(Promoted(ss, to), to)
  {
    forall i | 0 <= i < |to|
      ensures OfType(Promoted(ss, to)[i], to[i])
    {
      assert OfType(ss[i], from[i]);
    }
  }

  /** A constructor call leaves the slots of the enum value on the stack, whatever
      the variant and its arguments, and keeps all earlier locals. */
  lemma ConstructorBuilds(t: Type, variant: nat, args: seq<seq<Instr>>, vs: seq<Value>, types0: seq<ValType>,
                          types: seq<ValType>, st0: State) returns (st: State)
    requires HasType(EnumV(variant, vs), t) && |args| == |vs|
    requires Roomy(JoinVariants(t.variants), PayloadTypes(t.variants[variant]))
    requires |CoreTypesAll(PayloadTypes(t.variants[variant]))| <= |JoinVariants(t.variants)|
    requires types0 + Scratch(JoinVariants(t.variants), PayloadTypes(t.variants[variant]), |args|) <= types
    requires TypedLocals(st0.locals, types)
    requires forall k :: 0 <= k < |args| ==>
               ArgPushes(args[k], st0, |types0|, FlatV(vs[k], PayloadTypes(t.variants[variant])[k]))
    ensures Exec(BuildCode(variant, JoinVariants(t.variants), PayloadTypes(t.variants[variant]), args, |types0|), st0)
         == Some(st)
    ensures st.stack == st0.stack + FlatV(EnumV(variant, vs), t) && AgreesOn(st0, st, |types0|)
    ensures st.events == st0.events && TypedLocals(st.locals, types)
  {
    hide FlatV, FlatAll, HasType, BuildCode, BuildUpTo, Exec, JoinVariants, CoreTypesAll, CoreTypes, Scratch, ArgPushes,
         PromoteAll, Roomy, TypedLocals, Bounds, PayloadTypes;
    EnumFlat(EnumV(variant, vs), t, variant);
    var ts, joined := PayloadTypes(t.variants[variant]), JoinVariants(t.variants);
    EnumCore(t, variant);
    JoinedNoFloat(t.variants);
    FlatAllCount(vs, ts);
    var before := BuildRuns(variant, joined, ts, args, vs, types0, types, st0, |ts|);
    st := TailZeros(variant, joined, ts, args, vs, types0, types, st0, before);
    Assoc(st0.stack, [W32(variant % TWO32)], PromoteAll(FlatAll(vs, ts), joined));
  }

  lemma FlatAllCount(vs: seq<Value>, ts: seq<Type>)
    requires HaveTypes(vs, ts)
    ensures |FlatAll(vs, ts)| == |CoreTypesAll(ts)|
  {
    FlatAllTyped(vs, ts);
  }

  lemma TailZeros(variant: nat, joined: seq<ValType>, ts: seq<Type>, args: seq<seq<Instr>>, vs: seq<Value>,
                  types0: seq<ValType>, types: seq<ValType>, st0: State, before: State) returns (st: State)
    requires HaveTypes(vs, ts) && |ts| == |args| && Roomy(joined, ts) && Bounds(joined, CoreTypesAll(ts)) && NoFloat(joined)
    requires |FlatAll(vs, ts)| == |CoreTypesAll(ts)| && |CoreTypesAll(ts[..|ts|])| <= |joined|
    requires Exec(BuildUpTo(variant, joined, ts, args, |types0|, |ts|), st0) == Some(before)
    requires AfterArgs(variant, joined, ts, vs, |ts|, |types0|, types, st0, before)
    ensures Exec(BuildCode(variant, joined, ts, args, |types0|), st0) == Some(st)
    ensures st == before.(stack := st0.stack + [W32(variant % TWO32)] + PromoteAll(FlatAll(vs, ts), joined))
    ensures AgreesOn(st0, st, |types0|) && TypedLocals(st.locals, types) && st.events == st0.events
  {
    hide Exec, BuildUpTo, FlatAll, HasType, CoreTypes, CoreTypesAll, TypedLocals;
    assert ts[..|ts|] == ts;
    var rest := joined[|CoreTypesAll(ts)|..];
    ZeroRuns(rest, before);
    st := before.(stack := before.stack + seq(|rest|, i requires 0 <= i < |rest| => Zero(rest[i])));
    ExecThen(BuildUpTo(variant, joined, ts, args, |types0|, |ts|), ZeroCode(rest), st0, before);
    ZeroTail(FlatAll(vs, ts), joined, rest);
    assert st.stack == st0.stack + [W32(variant % TWO32)]
                       + (PromoteAll(FlatAll(vs, ts), joined)[..|FlatAll(vs, ts)|]
                          + seq(|rest|, i requires 0 <= i < |rest| => Zero(rest[i])));
  }

  lemma ZeroTail(ss: seq<Slot>, joined: seq<ValType>, rest: seq<ValType>)
    requires |ss| <= |joined| && rest == joined[|ss|..]
    ensures PromoteAll(ss, joined)
         == PromoteAll(ss, joined)[..|ss|] + seq(|rest|, i requires 0 <= i < |rest| => Zero(rest[i]))
  {
  }
}

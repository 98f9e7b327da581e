/** Suspending a UTXO at a `yield` and resuming it, directly or on another instance
    (the `Yield` case, `generate_resume_fn`, `generate_storage_exports`, `lib.rs`). */
module Suspension {
  import opened Options
  import opened Wasm

  // ---- Spilling locals to globals, and back.

  /** Store the first n locals into consecutive globals. */
  function SaveCode(base: nat, n: nat): seq<Instr> {
    if n == 0 then [] else SaveCode(base, n - 1) + [LocalGet(n - 1), GlobalSet(base + n - 1)]
  }

  function ZeroConst(t: ValType): Instr {
    if t.V64? then I64Const(0) else I32Const(0)
  }

  /** Load them again, and leave zeros in the globals. */
  function RestoreCode(base: nat, types: seq<ValType>, n: nat): seq<Instr>
    requires n <= |types|
  {
    if n == 0 then []
    else
      RestoreCode(base, types, n - 1)
      + [GlobalGet(base + n - 1), LocalSet(n - 1), ZeroConst(types[n - 1]), GlobalSet(base + n - 1)]
  }

  /** Slots of these types from an index on. */
  predicate TypedAt(slots: seq<Slot>, base: nat, types: seq<ValType>) {
    base + |types| <= |slots| && forall i :: 0 <= i < |types| ==> OfType(slots[base + i], types[i])
  }

  function Replace(slots: seq<Slot>, base: nat, new0: seq<Slot>): (r: seq<Slot>)
    requires base + |new0| <= |slots|
    ensures |r| == |slots|
    ensures forall x :: 0 <= x < |slots| ==> r[x] == if base <= x < base + |new0| then new0[x - base] else slots[x]
  {
    slots[..base] + new0 + slots[base + |new0|..]
  }

  function ZeroSlots(types: seq<ValType>): (r: seq<Slot>)
    ensures |r| == |types|
  {
    seq(|types|, i requires 0 <= i < |types| => if types[i].V64? then W64(0) else W32(0))
  }

  lemma ReplaceStep(slots: seq<Slot>, base: nat, new0: seq<Slot>, q: nat)
    requires q < |new0| && base + |new0| <= |slots|
    ensures Replace(slots, base, new0[..q + 1]) == Replace(slots, base, new0[..q])[base + q := new0[q]]
  {
  }

  lemma {:induction false} SaveRuns(base: nat, types: seq<ValType>, n: nat, st: State)
    requires n <= |types| && TypedAt(st.locals, 0, types) && TypedAt(st.globals, base, types)
    ensures Exec(SaveCode(base, n), st) == Some(st.(globals := Replace(st.globals, base, st.locals[..n])))
  {
    if n == 0 {
      assert Replace(st.globals, base, []) == st.globals;
    } else {
      SaveRuns(base, types, n - 1, st);
      SaveOne(base, types, n - 1, st, st.(globals := Replace(st.globals, base, st.locals[..n - 1])));
    }
  }

  lemma SaveOne(base: nat, types: seq<ValType>, q: nat, st: State, mid: State)
    requires q < |types| && TypedAt(st.locals, 0, types) && TypedAt(st.globals, base, types)
    requires mid == st.(globals := Replace(st.globals, base, st.locals[..q]))
    requires Exec(SaveCode(base, q), st) == Some(mid)
    ensures Exec(SaveCode(base, q + 1), st) == Some(st.(globals := Replace(st.globals, base, st.locals[..q + 1])))
  {
    hide Step, Exec;
    assert OfType(st.locals[0 + q], types[q]) && OfType(st.globals[base + q], types[q]);
    var code := [LocalGet(q), GlobalSet(base + q)];
    GetSteps(q, mid);
    GlobalSetSteps(base + q, mid, st.locals[q]);
    StepThen(LocalGet(q), [GlobalSet(base + q)], mid, Push(mid, st.locals[q]));
    ExecOne(GlobalSet(base + q), Push(mid, st.locals[q]));
    assert code == [LocalGet(q)] + [GlobalSet(base + q)];
    ExecThen(SaveCode(base, q), code, st, mid);
    ReplaceStep(st.globals, base, st.locals[..|types|], q);
    assert st.locals[..|types|][..q] == st.locals[..q] && st.locals[..|types|][..q + 1] == st.locals[..q + 1];
  }

  /** The state after n locals have been loaded. */
  function Restored(st: State, base: nat, types: seq<ValType>, n: nat): State
    requires n <= |types| && TypedAt(st.locals, 0, types) && TypedAt(st.globals, base, types)
  {
    st.(locals := Replace(st.locals, 0, st.globals[base..base + n]),
        globals := Replace(st.globals, base, ZeroSlots(types)[..n]))
  }

  lemma {:induction false} RestoreRuns(base: nat, types: seq<ValType>, n: nat, st: State)
    requires n <= |types| && TypedAt(st.locals, 0, types) && TypedAt(st.globals, base, types)
    ensures Exec(RestoreCode(base, types, n), st) == Some(Restored(st, base, types, n))
  {
    hide Restored, TypedAt;
    if n == 0 {
      NothingRestored(st, base, types);
    } else {
      RestoreRuns(base, types, n - 1, st);
      RestoreOne(base, types, n - 1, st);
    }
  }

  lemma NothingRestored(st: State, base: nat, types: seq<ValType>)
    requires TypedAt(st.locals, 0, types) && TypedAt(st.globals, base, types)
    ensures Restored(st, base, types, 0) == st
  {
    assert Replace(st.locals, 0, []) == st.locals && Replace(st.globals, base, []) == st.globals;
    assert st.globals[base..base + 0] == [] && ZeroSlots(types)[..0] == [];
  }

  lemma RestoreOne(base: nat, types: seq<ValType>, q: nat, st: State)
    requires q < |types| && TypedAt(st.locals, 0, types) && TypedAt(st.globals, base, types)
    requires Exec(RestoreCode(base, types, q), st) == Some(Restored(st, base, types, q))
    ensures Exec(RestoreCode(base, types, q + 1), st) == Some(Restored(st, base, types, q + 1))
  {
    hide Step, Exec, Restored, TypedAt, OfType, SameKind;
    RestoredNext(st, base, types, q);
    var mid, s, z := Restored(st, base, types, q), st.globals[base + q], ZeroSlots(types)[q];
    var a := mid.(locals := mid.locals[q := s]);
    GlobalGetSteps(base + q, mid);
    SetSteps(q, mid, s);
    ConstSteps(types[q], a);
    GlobalSetSteps(base + q, a, z);
    FourSteps(GlobalGet(base + q), LocalSet(q), ZeroConst(types[q]), GlobalSet(base + q),
              mid, Push(mid, s), a, Push(a, z), Restored(st, base, types, q + 1));
    ExecThen(RestoreCode(base, types, q),
             [GlobalGet(base + q), LocalSet(q), ZeroConst(types[q]), GlobalSet(base + q)], st, mid);
  }

  lemma RestoredNext(st: State, base: nat, types: seq<ValType>, q: nat)
    requires q < |types| && TypedAt(st.locals, 0, types) && TypedAt(st.globals, base, types)
    ensures q < |st.locals| && base + q < |st.globals| && (types[q].V32? || types[q].V64?)
    ensures |Restored(st, base, types, q).locals| == |st.locals| && |Restored(st, base, types, q).globals| == |st.globals|
    ensures Restored(st, base, types, q).globals[base + q] == st.globals[base + q]
    ensures SameKind(st.globals[base + q], Restored(st, base, types, q).locals[q])
    ensures SameKind(ZeroSlots(types)[q], st.globals[base + q])
    ensures Restored(st, base, types, q + 1)
         == (var mid := Restored(st, base, types, q);
             mid.(locals := mid.locals[q := st.globals[base + q]],
                  globals := mid.globals[base + q := ZeroSlots(types)[q]]))
  {
    assert OfType(st.locals[0 + q], types[q]) && OfType(st.globals[base + q], types[q]);
    var saved := st.globals[base..base + |types|];
    ReplaceStep(st.locals, 0, saved, q);
    ReplaceStep(st.globals, base, ZeroSlots(types), q);
    assert saved[..q] == st.globals[base..base + q] && saved[..q + 1] == st.globals[base..base + (q + 1)];
  }

  lemma GlobalGetSteps(x: nat, st: State)
    requires x < |st.globals|
    ensures Step(GlobalGet(x), st) == Some(Push(st, st.globals[x]))
  {
  }

  lemma ConstSteps(t: ValType, st: State)
    requires t.V32? || t.V64?
    ensures Step(ZeroConst(t), st) == Some(Push(st, if t.V64? then W64(0) else W32(0)))
  {
  }

  lemma FourSteps(i: Instr, j: Instr, k: Instr, l: Instr, s0: State, s1: State, s2: State, s3: State, s4: State)
    requires Step(i, s0) == Some(s1) && Step(j, s1) == Some(s2) && Step(k, s2) == Some(s3) && Step(l, s3) == Some(s4)
    ensures Exec([i, j, k, l], s0) == Some(s4)
  {
    hide Step, Exec;
    StepThen(i, [j, k, l], s0, s1);
    StepThen(j, [k, l], s1, s2);
    StepThen(k, [l], s2, s3);
    ExecOne(l, s3);
    assert [i, j, k, l] == [i] + [j, k, l] && [j, k, l] == [j] + [k, l] && [k, l] == [k] + [l];
  }

  // ---- Storage exports.

  /** `get-storage` returns the values of all fields, in order. */
  function GetStorageCode(fields: seq<nat>): seq<Instr> {
    if fields == [] then [] else GetStorageCode(fields[..|fields| - 1]) + [GlobalGet(fields[|fields| - 1])]
  }

  /** `set-storage` stores its arguments, which follow the first `skip` ones. */
  function SetStorageCode(fields: seq<nat>, skip: nat): seq<Instr> {
    if fields == [] then []
    else
      var n := |fields| - 1;
      SetStorageCode(fields[..n], skip) + [LocalGet(skip + n), GlobalSet(fields[n])]
  }

  function Gathered(globals: seq<Slot>, fields: seq<nat>): (r: seq<Slot>)
    requires forall k :: 0 <= k < |fields| ==> fields[k] < |globals|
    ensures |r| == |fields| && forall k :: 0 <= k < |fields| ==> r[k] == globals[fields[k]]
  {
    seq(|fields|, k requires 0 <= k < |fields| => globals[fields[k]])
  }

  lemma {:induction false} GetStorageRuns(fields: seq<nat>, st: State)
    requires forall k :: 0 <= k < |fields| ==> fields[k] < |st.globals|
    ensures Exec(GetStorageCode(fields), st) == Some(st.(stack := st.stack + Gathered(st.globals, fields)))
  {
    hide Step;
    if fields == [] {
      assert st.stack + Gathered(st.globals, []) == st.stack;
    } else {
      var n := |fields| - 1;
      GetStorageRuns(fields[..n], st);
      var mid := st.(stack := st.stack + Gathered(st.globals, fields[..n]));
      ExecThen(GetStorageCode(fields[..n]), [GlobalGet(fields[n])], st, mid);
      GlobalGetSteps(fields[n], mid);
      ExecOne(GlobalGet(fields[n]), mid);
      assert Gathered(st.globals, fields) == Gathered(st.globals, fields[..n]) + [st.globals[fields[n]]];
      assert mid.stack + [st.globals[fields[n]]] == st.stack + Gathered(st.globals, fields);
    }
  }

  predicate DistinctFields(fields: seq<nat>, n: nat) {
    && (forall k :: 0 <= k < |fields| ==> fields[k] < n)
    && (forall j, k :: 0 <= j < k < |fields| ==> fields[j] != fields[k])
  }

  predicate TypedValues(fields: seq<nat>, values: seq<Slot>, types: seq<ValType>) {
    |values| == |fields| && forall k :: 0 <= k < |fields| ==> fields[k] < |types| && OfType(values[k], types[fields[k]])
  }

  lemma {:induction false} SetStorageRuns(fields: seq<nat>, skip: nat, values: seq<Slot>, types: seq<ValType>, st: State)
      returns (st': State)
    requires DistinctFields(fields, |types|) && OfTypes(st.globals, types) && TypedValues(fields, values, types)
    requires skip + |values| <= |st.locals| && st.locals[skip..skip + |values|] == values
    ensures Exec(SetStorageCode(fields, skip), st) == Some(st')
    ensures st' == st.(globals := st'.globals) && OfTypes(st'.globals, types)
    ensures forall k :: 0 <= k < |fields| ==> st'.globals[fields[k]] == values[k]
    ensures forall x: nat :: x < |types| && x !in fields ==> st'.globals[x] == st.globals[x]
    decreases |fields|
  {
    hide Step, Exec, OfTypes, OfType, SetStorageCode, SameKind;
    if fields == [] {
      st' := st;
      NothingSet(skip, st);
    } else {
      var n := |fields| - 1;
      assert st.locals[skip..skip + n] == values[..n];
      var mid := SetStorageRuns(fields[..n], skip, values[..n], types, st);
      assert st.locals[skip + n] == st.locals[skip..skip + |values|][n];
      FieldSettable(fields, values, types, n, mid.globals);
      st' := mid.(globals := mid.globals[fields[n] := values[n]]);
      OneFieldSet(fields, skip, n, st, mid);
      SetKeepsTypes(mid.globals, types, fields[n], values[n]);
      SetOthers(fields, n, |types|);
    }
  }

  lemma FieldSettable(fields: seq<nat>, values: seq<Slot>, types: seq<ValType>, n: nat, globals: seq<Slot>)
    requires n < |fields| && TypedValues(fields, values, types) && OfTypes(globals, types)
    ensures fields[n] < |types| == |globals| && OfType(values[n], types[fields[n]])
    ensures SameKind(values[n], globals[fields[n]])
  {
    assert OfType(globals[fields[n]], types[fields[n]]) && OfType(values[n], types[fields[n]]);
  }

  lemma SetKeepsTypes(globals: seq<Slot>, types: seq<ValType>, x: nat, value: Slot)
    requires OfTypes(globals, types) && x < |types| && OfType(value, types[x])
    ensures OfTypes(globals[x := value], types)
  {
    forall k | 0 <= k < |types|
      ensures OfType(globals[x := value][k], types[k])
    {
      assert OfType(globals[k], types[k]);
    }
  }

  lemma SetOthers(fields: seq<nat>, n: nat, count: nat)
    requires n + 1 == |fields| && DistinctFields(fields, count)
    ensures forall k :: 0 <= k < n ==> fields[k] != fields[n]
    ensures forall x: nat :: x !in fields ==> x !in fields[..n] && x != fields[n]
  {
    forall x: nat | x !in fields
      ensures x !in fields[..n] && x != fields[n]
    {
      assert fields[n] in fields;
    }
  }

  lemma NothingSet(skip: nat, st: State)
    ensures Exec(SetStorageCode([], skip), st) == Some(st)
  {
  }

  lemma OneFieldSet(fields: seq<nat>, skip: nat, n: nat, st: State, mid: State)
    requires n + 1 == |fields| && skip + n < |mid.locals| && fields[n] < |mid.globals|
    requires SameKind(mid.locals[skip + n], mid.globals[fields[n]])
    requires Exec(SetStorageCode(fields[..n], skip), st) == Some(mid)
    ensures Exec(SetStorageCode(fields, skip), st)
         == Some(mid.(globals := mid.globals[fields[n] := mid.locals[skip + n]]))
  {
    hide Step, Exec;
    var s := mid.locals[skip + n];
    GetSteps(skip + n, mid);
    GlobalSetSteps(fields[n], mid, s);
    StepThen(LocalGet(skip + n), [GlobalSet(fields[n])], mid, Push(mid, s));
    ExecOne(GlobalSet(fields[n]), Push(mid, s));
    assert [LocalGet(skip + n), GlobalSet(fields[n])] == [LocalGet(skip + n)] + [GlobalSet(fields[n])];
    ExecThen(SetStorageCode(fields[..n], skip), [LocalGet(skip + n), GlobalSet(fields[n])], st, mid);
  }

  /** The whole of `set-storage`: the context, when there is one, is the first argument
      and goes to its own global. */
  function SetStorageExport(context: Option<nat>, fields: seq<nat>): seq<Instr> {
    if context.Some? then [LocalGet(0), GlobalSet(context.value)] + SetStorageCode(fields, 1)
    else SetStorageCode(fields, 0)
  }

  /** Emit both storage functions of a resource. */
  method GenerateStorageExports(context: Option<nat>, fields: seq<nat>)
    returns (getCode: seq<Instr>, setCode: seq<Instr>)
    ensures getCode == GetStorageCode(fields) && setCode == SetStorageExport(context, fields)
  {
    getCode := [];
    for k := 0 to |fields|
      invariant getCode == GetStorageCode(fields[..k])
    {
      assert fields[..k + 1][..k] == fields[..k];
      getCode := getCode + [GlobalGet(fields[k])];
    }
    assert fields[..|fields|] == fields;
    if context.Some? {
      setCode := SetFields(1, fields);
      setCode := [LocalGet(0), GlobalSet(context.value)] + setCode;
    } else {
      setCode := SetFields(0, fields);
    }
  }

  method SetFields(skip: nat, fields: seq<nat>) returns (code: seq<Instr>)
    ensures code == SetStorageCode(fields, skip)
  {
    code := [];
    for l := 0 to |fields|
      invariant code == SetStorageCode(fields[..l], skip)
    {
      assert fields[..l + 1][..l] == fields[..l];
      code := code + [LocalGet(skip + l), GlobalSet(fields[l])];
    }
    assert fields[..|fields|] == fields;
  }

  /** The arguments of `set-storage`: the context, if any, and the fields' values. */
  function SetArgs(context: Option<nat>, ctx: Slot, values: seq<Slot>): seq<Slot> {
    if context.Some? then [ctx] + values else values
  }

  /** The context's own global holds no field. */
  predicate ContextApart(context: Option<nat>, fields: seq<nat>, types: seq<ValType>) {
    context.Some? ==> context.value < |types| && types[context.value] == V32 && context.value !in fields
  }

  /** `set-storage` writes every field, and the context to its global, and nothing else. */
  lemma SetExportRuns(context: Option<nat>, ctx: Slot, fields: seq<nat>, values: seq<Slot>, types: seq<ValType>,
                      to: seq<Slot>) returns (st': State)
    requires DistinctFields(fields, |types|) && ContextApart(context, fields, types) && OfTypes(to, types)
    requires OfType(ctx, V32) && TypedValues(fields, values, types)
    ensures Exec(SetStorageExport(context, fields), State([], SetArgs(context, ctx, values), to, [])) == Some(st')
    ensures st' == State([], SetArgs(context, ctx, values), st'.globals, []) && OfTypes(st'.globals, types)
    ensures forall k :: 0 <= k < |fields| ==> st'.globals[fields[k]] == values[k]
    ensures forall x: nat :: x < |types| && x !in fields ==>
              st'.globals[x] == if context == Some(x) then ctx else to[x]
  {
    hide Step, Exec, SetStorageCode;
    if context.Some? {
      st' := SetWithContext(context.value, ctx, fields, values, types, to);
    } else {
      assert values[0..0 + |values|] == values;
      st' := SetStorageRuns(fields, 0, values, types, State([], values, to, []));
    }
  }

  lemma SetWithContext(c: nat, ctx: Slot, fields: seq<nat>, values: seq<Slot>, types: seq<ValType>, to: seq<Slot>)
      returns (st': State)
    requires DistinctFields(fields, |types|) && OfTypes(to, types) && OfType(ctx, V32) && TypedValues(fields, values, types)
    requires c < |types| && types[c] == V32 && c !in fields
    ensures Exec(SetStorageExport(Some(c), fields), State([], [ctx] + values, to, [])) == Some(st')
    ensures st' == State([], [ctx] + values, st'.globals, []) && OfTypes(st'.globals, types)
    ensures forall k :: 0 <= k < |fields| ==> st'.globals[fields[k]] == values[k]
    ensures forall x: nat :: x < |types| && x !in fields ==> st'.globals[x] == if c == x then ctx else to[x]
  {
    hide Step, Exec, SetStorageCode, DistinctFields, TypedValues, OfType, OfTypes;
    GlobalTyped(c, ctx, types, to);
    ContextSet(c, ctx, values, to);
    var st, mid := State([], [ctx] + values, to, []), State([], [ctx] + values, to[c := ctx], []);
    ExecThen([LocalGet(0), GlobalSet(c)], SetStorageCode(fields, 1), st, mid);
    InsideTypes(fields, values, types);
    assert ([ctx] + values)[1..1 + |values|] == values;
    st' := SetStorageRuns(fields, 1, values, types, mid);
    SameCount(st'.globals, types);
  }

  lemma SameCount(slots: seq<Slot>, types: seq<ValType>)
    requires OfTypes(slots, types)
    ensures |slots| == |types|
  {
  }

  lemma InsideTypes(fields: seq<nat>, values: seq<Slot>, types: seq<ValType>)
    requires DistinctFields(fields, |types|) && TypedValues(fields, values, types)
    ensures |values| == |fields| && forall k :: 0 <= k < |fields| ==> fields[k] < |types|
  {
  }

  lemma GlobalTyped(c: nat, ctx: Slot, types: seq<ValType>, to: seq<Slot>)
    requires OfTypes(to, types) && OfType(ctx, V32) && c < |types| && types[c] == V32
    ensures OfTypes(to[c := ctx], types) && ctx.W32? && |to| == |types| && to[c].W32?
  {
    assert OfType(to[c], types[c]);
  }

  lemma ContextSet(c: nat, ctx: Slot, values: seq<Slot>, to: seq<Slot>)
    requires c < |to| && ctx.W32? && to[c].W32?
    ensures Exec([LocalGet(0), GlobalSet(c)], State([], [ctx] + values, to, []))
         == Some(State([], [ctx] + values, to[c := ctx], []))
  {
    hide Step, Exec;
    var st := State([], [ctx] + values, to, []);
    GetSteps(0, st);
    GlobalSetSteps(c, st, ctx);
    StepThen(LocalGet(0), [GlobalSet(c)], st, Push(st, ctx));
    ExecOne(GlobalSet(c), Push(st, ctx));
    assert [LocalGet(0), GlobalSet(c)] == [LocalGet(0)] + [GlobalSet(c)];
  }

  // ---- The resume function.

  /** Its code: straight-line instructions inside one-level blocks. */
  datatype DispatchOp = Plain(i: Instr) | Block | BrIf | End | ReturnCall(func: nat) | Trap

  datatype Dispatched = Calls(func: nat, events: seq<Event>) | Traps | Stuck

  function AfterEnd(code: seq<DispatchOp>): (r: seq<DispatchOp>)
    ensures |r| <= |code|
  {
    if code == [] then [] else if code[0].End? then code[1..] else AfterEnd(code[1..])
  }

  function RunDispatch(code: seq<DispatchOp>, st: State): Dispatched
    decreases |code|
  {
    if code == [] then Stuck
    else match code[0]
      case Plain(i) => if Step(i, st).None? then Stuck else RunDispatch(code[1..], Step(i, st).value)
      case Block => RunDispatch(code[1..], st)
      case End => RunDispatch(code[1..], st)
      case BrIf =>
        if st.stack == [] || !Top(st).W32? then Stuck
        else if Top(st).bits != 0 then RunDispatch(AfterEnd(code[1..]), Drop(st, 1))
        else RunDispatch(code[1..], Drop(st, 1))
      case ReturnCall(func) => Calls(func, st.events)
      case Trap => Traps
  }

  function DispatchOne(yieldGlobal: nat, k: nat, func: nat): seq<DispatchOp> {
    [Block, Plain(GlobalGet(yieldGlobal)), Plain(I32Const(k + 1)), Plain(I32Ne), BrIf, ReturnCall(func), End]
  }

  /** Tests for the yields lo to hi, then a trap. */
  function DispatchCode(yieldGlobal: nat, yieldFuncs: seq<nat>, lo: nat, hi: nat): seq<DispatchOp>
    requires lo <= hi <= |yieldFuncs|
    decreases hi - lo
  {
    if lo == hi then [Trap]
    else DispatchOne(yieldGlobal, lo, yieldFuncs[lo]) + DispatchCode(yieldGlobal, yieldFuncs, lo + 1, hi)
  }

  /** The resume function: it tells the host, then dispatches on the yield number. */
  function ResumeCode(contextGlobal: nat, yieldGlobal: nat, yieldFuncs: seq<nat>, lo: nat, hi: nat): seq<DispatchOp>
    requires lo <= hi <= |yieldFuncs|
  {
    [Plain(GlobalGet(contextGlobal)), Plain(CallHost(RESUME, 1))] + DispatchCode(yieldGlobal, yieldFuncs, lo, hi)
  }

  const RESUME: string := "[method]utxo-context.resume"

  method GenerateResumeFn(contextGlobal: nat, yieldGlobal: nat, yieldFuncs: seq<nat>, lo: nat, hi: nat)
    returns (code: seq<DispatchOp>)
    requires lo <= hi <= |yieldFuncs|
    ensures code == ResumeCode(contextGlobal, yieldGlobal, yieldFuncs, lo, hi)
  {
    code := [Plain(GlobalGet(contextGlobal)), Plain(CallHost(RESUME, 1))];
    for k := lo to hi
      invariant code + DispatchCode(yieldGlobal, yieldFuncs, k, hi)
             == ResumeCode(contextGlobal, yieldGlobal, yieldFuncs, lo, hi)
    {
      var one := DispatchOne(yieldGlobal, k, yieldFuncs[k]);
      assert code + (one + DispatchCode(yieldGlobal, yieldFuncs, k + 1, hi))
          == code + one + DispatchCode(yieldGlobal, yieldFuncs, k + 1, hi);
      code := code + one;
    }
    code := code + [Trap];
  }

  lemma OneDispatch(yieldGlobal: nat, k: nat, func: nat, rest: seq<DispatchOp>, st: State)
    requires yieldGlobal < |st.globals| && st.globals[yieldGlobal].W32? && k + 1 < TWO32
    ensures RunDispatch(DispatchOne(yieldGlobal, k, func) + rest, st)
         == if st.globals[yieldGlobal] == W32(k + 1) then Calls(func, st.events) else RunDispatch(rest, st)
  {
    hide Step, RunDispatch, AfterEnd, Push;
    var g, c := st.globals[yieldGlobal], W32(k + 1);
    var tail := [ReturnCall(func)] + ([End] + rest);
    GlobalGetSteps(yieldGlobal, st);
    ConstStep(k + 1, Push(st, g));
    NeSteps(st, g, c);
    BlockThen([Plain(GlobalGet(yieldGlobal))] + ([Plain(I32Const(k + 1))] + ([Plain(I32Ne)] + ([BrIf] + tail))), st);
    PlainThen(GlobalGet(yieldGlobal), [Plain(I32Const(k + 1))] + ([Plain(I32Ne)] + ([BrIf] + tail)), st, Push(st, g));
    PlainThen(I32Const(k + 1), [Plain(I32Ne)] + ([BrIf] + tail), Push(st, g), Push(Push(st, g), c));
    PlainThen(I32Ne, [BrIf] + tail, Push(Push(st, g), c), Push(st, Truth(c != g)));
    BrIfThen(tail, st, c != g);
    CallEnd(func, rest, st);
    assert DispatchOne(yieldGlobal, k, func) + rest
        == [Block] + ([Plain(GlobalGet(yieldGlobal))] + ([Plain(I32Const(k + 1))] + ([Plain(I32Ne)] + ([BrIf] + tail))));
  }

  lemma ConstStep(n: nat, st: State)
    requires n < TWO32
    ensures Step(I32Const(n), st) == Some(Push(st, W32(n)))
  {
  }

  lemma BlockThen(rest: seq<DispatchOp>, st: State)
    ensures RunDispatch([Block] + rest, st) == RunDispatch(rest, st)
  {
    assert ([Block] + rest)[1..] == rest;
  }

  lemma PlainThen(i: Instr, rest: seq<DispatchOp>, st: State, next: State)
    requires Step(i, st) == Some(next)
    ensures RunDispatch([Plain(i)] + rest, st) == RunDispatch(rest, next)
  {
    assert ([Plain(i)] + rest)[1..] == rest;
  }

  lemma BrIfThen(rest: seq<DispatchOp>, st: State, b: bool)
    ensures RunDispatch([BrIf] + rest, Push(st, Truth(b))) == RunDispatch(if b then AfterEnd(rest) else rest, st)
  {
    assert ([BrIf] + rest)[1..] == rest;
    assert Push(st, Truth(b)).stack[..|st.stack|] == st.stack;
  }

  lemma CallEnd(func: nat, rest: seq<DispatchOp>, st: State)
    ensures AfterEnd([ReturnCall(func)] + ([End] + rest)) == rest
    ensures RunDispatch([ReturnCall(func)] + ([End] + rest), st) == Calls(func, st.events)
  {
    assert ([ReturnCall(func)] + ([End] + rest))[1..] == [End] + rest;
    assert ([End] + rest)[1..] == rest;
  }

  lemma NeSteps(st: State, a: Slot, b: Slot)
    requires a.W32? && b.W32?
    ensures Step(I32Ne, Push(Push(st, a), b)) == Some(Push(st, Truth(b != a)))
  {
    var st2 := Push(Push(st, a), b);
    assert st2.stack[..|st.stack|] == st.stack && st2.stack[..|st.stack| + 1] == Push(st, a).stack;
    assert Drop(st2, 1) == Push(st, a) && Drop(st2, 2) == st;
  }

  lemma HostSteps(st: State, name: string, s: Slot)
    ensures Step(CallHost(name, 1), Push(st, s)) == Some(st.(events := st.events + [HostCalled(name, [s])]))
  {
    assert Push(st, s).stack[|st.stack|..] == [s] && Push(st, s).stack[..|st.stack|] == st.stack;
  }

  /** Resuming tells the host, and calls the function of the yield whose number is
      stored, if it is one of this resource's yields; otherwise it traps. */
  lemma ResumeCallsHost(contextGlobal: nat, yieldGlobal: nat, yieldFuncs: seq<nat>, lo: nat, hi: nat, st: State)
    requires lo <= hi <= |yieldFuncs| && hi < TWO32 && contextGlobal < |st.globals|
    requires yieldGlobal < |st.globals| && st.globals[yieldGlobal].W32?
    ensures RunDispatch(ResumeCode(contextGlobal, yieldGlobal, yieldFuncs, lo, hi), st)
         == if lo < st.globals[yieldGlobal].bits <= hi
            then Calls(yieldFuncs[st.globals[yieldGlobal].bits - 1],
                       st.events + [HostCalled("[method]utxo-context.resume", [st.globals[contextGlobal]])])
            else Traps
  {
    hide Step, RunDispatch, DispatchCode;
    var rest := DispatchCode(yieldGlobal, yieldFuncs, lo, hi);
    var c := st.globals[contextGlobal];
    var told := st.(events := st.events + [HostCalled(RESUME, [c])]);
    GlobalGetSteps(contextGlobal, st);
    HostSteps(st, RESUME, c);
    PlainThen(GlobalGet(contextGlobal), [Plain(CallHost(RESUME, 1))] + rest, st, Push(st, c));
    PlainThen(CallHost(RESUME, 1), rest, Push(st, c), told);
    assert ResumeCode(contextGlobal, yieldGlobal, yieldFuncs, lo, hi)
        == [Plain(GlobalGet(contextGlobal))] + ([Plain(CallHost(RESUME, 1))] + rest);
    ResumeCalls(yieldGlobal, yieldFuncs, lo, hi, told);
  }

  /** The dispatch alone. */
  lemma {:induction false} ResumeCalls(yieldGlobal: nat, yieldFuncs: seq<nat>, lo: nat, hi: nat, st: State)
    requires lo <= hi <= |yieldFuncs| && hi < TWO32
    requires yieldGlobal < |st.globals| && st.globals[yieldGlobal].W32?
    ensures RunDispatch(DispatchCode(yieldGlobal, yieldFuncs, lo, hi), st)
         == if lo < st.globals[yieldGlobal].bits <= hi then Calls(yieldFuncs[st.globals[yieldGlobal].bits - 1], st.events)
            else Traps
    decreases hi - lo
  {
    if lo < hi {
      ResumeCalls(yieldGlobal, yieldFuncs, lo + 1, hi, st);
      OneDispatch(yieldGlobal, lo, yieldFuncs[lo], DispatchCode(yieldGlobal, yieldFuncs, lo + 1, hi), st);
    }
  }
}

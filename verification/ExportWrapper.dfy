/** The wrapper around an exported function with more than one flat result: it stores
    the results to a static slot and returns its address (`component_store`,
    `alloc_static` and `make_component_export_wrapper_fn` in `lib.rs`). */
module ExportWrapper {
  import opened Options
  import opened TypeTable
  import opened Wasm
  import opened EnumEncoding
  import opened AbiLayout
  import opened AbiMemory
  import opened ComponentTypes
  import Columns
  import S = StarTypes

  // ---- Static memory.

  /** Static slots are handed out upwards from address 4. */
  class StaticMemory {
    var bumpPtr: nat
    ghost var slots: seq<(nat, nat)>

    ghost predicate Valid()
      reads this
    {
      && (forall i :: 0 <= i < |slots| ==> 4 <= slots[i].0 <= slots[i].1 <= bumpPtr)
      && (forall i, j :: 0 <= i < j < |slots| ==> slots[i].1 <= slots[j].0)
    }

    constructor ()
      ensures Valid() && bumpPtr == 0 && slots == []
    {
      bumpPtr, slots := 0, [];
    }

    /** A slot after all earlier ones, aligned and never at a null address. */
    method AllocStatic(size: nat, align: nat) returns (addr: nat)
      requires Valid() && Power(align)
      modifies this
      ensures Valid() && slots == old(slots) + [(addr, addr + size)] && bumpPtr == addr + size
      ensures Aligned(addr, align) && addr >= 4
      ensures addr >= old(bumpPtr) && addr < Max(old(bumpPtr), 4) + align
    {
      addr := AlignTo(Max(bumpPtr, 4), align);
      RoundsUp(Max(bumpPtr, 4), align);
      bumpPtr := addr + size;
      slots := slots + [(addr, addr + size)];
    }
  }

  // ---- Code with memory.

  datatype MemInstr = Plain(i: Instr) | Store(s: StoreFn) | CallCore

  datatype MemState = MemState(st: State, memory: seq<Byte>)

  /** What the core function does when called: it takes its parameters from the stack,
      pushes its results, and leaves some memory, globals and events behind. */
  datatype Callee = Callee(params: nat, results: seq<Slot>, memory: seq<Byte>, globals: seq<Slot>, events: seq<Event>)

  function MemStep(i: MemInstr, ms: MemState, callee: Callee): Option<MemState> {
    match i
    case Plain(i) =>
      var next := Step(i, ms.st);
      if next.None? then None else Some(ms.(st := next.value))
    case Store(s) =>
      if |ms.st.stack| < 2 || !Top(Drop(ms.st, 1)).W32? then None
      else
        var r := StoreOne(ms.memory, Top(Drop(ms.st, 1)).bits, s, Top(ms.st));
        if r.None? then None else Some(MemState(Drop(ms.st, 2), r.value))
    case CallCore =>
      if |ms.st.stack| < callee.params then None
      else Some(MemState(State(ms.st.stack[..|ms.st.stack| - callee.params] + callee.results, ms.st.locals,
        callee.globals, callee.events), callee.memory))
  }

  function RunMem(code: seq<MemInstr>, ms: MemState, callee: Callee): Option<MemState> {
    if code == [] then Some(ms)
    else
      var next := MemStep(code[0], ms, callee);
      if next.None? then None else RunMem(code[1..], next.value, callee)
  }

  lemma {:induction false} RunMemThen(a: seq<MemInstr>, b: seq<MemInstr>, ms: MemState, mid: MemState, callee: Callee)
    requires RunMem(a, ms, callee) == Some(mid)
    ensures RunMem(a + b, ms, callee) == RunMem(b, mid, callee)
  {
    if a == [] {
      assert a + b == b;
    } else {
      assert (a + b)[1..] == a[1..] + b;
      RunMemThen(a[1..], b, MemStep(a[0], ms, callee).value, mid, callee);
    }
  }

  lemma RunMemOne(i: MemInstr, ms: MemState, callee: Callee)
    ensures RunMem([i], ms, callee) == MemStep(i, ms, callee)
  {
    assert [i][1..] == [];
  }

  function Plains(code: seq<Instr>): (r: seq<MemInstr>)
    ensures |r| == |code| && forall k :: 0 <= k < |code| ==> r[k] == Plain(code[k])
  {
    seq(|code|, k requires 0 <= k < |code| => Plain(code[k]))
  }

  lemma {:induction false} PlainsRun(code: seq<Instr>, ms: MemState, callee: Callee, st: State)
    requires Exec(code, ms.st) == Some(st)
    ensures RunMem(Plains(code), ms, callee) == Some(ms.(st := st))
    decreases |code|
  {
    if code != [] {
      assert Plains(code)[1..] == Plains(code[1..]);
      PlainsRun(code[1..], ms.(st := Step(code[0], ms.st).value), callee, st);
    }
  }

  // ---- Storing from locals.

  function StoreEach(addr: nat, values: nat, stores: seq<StoreFn>): seq<MemInstr> {
    if stores == [] then []
    else
      var n := |stores| - 1;
      StoreEach(addr, values, stores[..n]) + [Plain(LocalGet(addr)), Plain(LocalGet(values + n)), Store(stores[n])]
  }

  /** One store takes its operands from the stack; several go through locals. */
  function StoreCode(addr: nat, stores: seq<StoreFn>): seq<MemInstr> {
    if |stores| == 1 then [Store(stores[0])]
    else if |stores| > 1 then
      Plains(Columns.SpillCode(addr + 1, |stores|)) + [Plain(LocalSet(addr))] + StoreEach(addr, addr + 1, stores)
    else []
  }

  /** Emit the code that stores a value; the address and then the slots are on the
      stack. Returns the types of the locals it adds after the first `locals`. */
  method ComponentStore(ty: Ty, offset: nat, locals: nat) returns (code: seq<MemInstr>, added: seq<ValType>)
    requires Storable(ty)
    ensures code == StoreCode(locals, Stores(ty, offset))
    ensures added == if |Stores(ty, offset)| > 1 then [V32] + Flat(ty) else []
  {
    var storeFns := GetStoreFns(ty, offset, []);
    assert storeFns == Stores(ty, offset);
    StoresMatchFlat(ty, offset);
    code, added := [], [];
    if |storeFns| == 1 {
      code := [Store(storeFns[0])];
    } else if |storeFns| > 1 {
      added := [V32] + Flat(ty);
      code := SetValues(locals + 1, |storeFns|);
      code := code + [Plain(LocalSet(locals))];
      var each := GetAndStore(locals, storeFns);
      code := code + each;
    }
  }

  /** Pop the values into their locals, the last one first. */
  method SetValues(valueLocal: nat, n: nat) returns (code: seq<MemInstr>)
    ensures code == Plains(Columns.SpillCode(valueLocal, n))
  {
    code := [];
    var i := n;
    while i > 0
      invariant 0 <= i <= n
      invariant code + Plains(Columns.SpillCode(valueLocal, i)) == Plains(Columns.SpillCode(valueLocal, n))
    {
      i := i - 1;
      assert Plains(Columns.SpillCode(valueLocal, i + 1))
          == [Plain(LocalSet(valueLocal + i))] + Plains(Columns.SpillCode(valueLocal, i));
      code := code + [Plain(LocalSet(valueLocal + i))];
    }
  }

  method GetAndStore(addrLocal: nat, storeFns: seq<StoreFn>) returns (code: seq<MemInstr>)
    ensures code == StoreEach(addrLocal, addrLocal + 1, storeFns)
  {
    code := [];
    for i := 0 to |storeFns|
      invariant code == StoreEach(addrLocal, addrLocal + 1, storeFns[..i])
    {
      assert storeFns[..i + 1][..i] == storeFns[..i];
      code := code + [Plain(LocalGet(addrLocal)), Plain(LocalGet(addrLocal + 1 + i)), Store(storeFns[i])];
    }
    assert storeFns[..|storeFns|] == storeFns;
  }

  // ---- What the code does.

  lemma StoreSteps(s: StoreFn, ms: MemState, base: nat, x: Slot, memory: seq<Byte>, callee: Callee)
    requires StoreOne(ms.memory, base, s, x) == Some(memory)
    ensures MemStep(Store(s), ms.(st := Push(Push(ms.st, W32(base)), x)), callee) == Some(ms.(memory := memory))
  {
    var st := Push(Push(ms.st, W32(base)), x);
    assert Drop(st, 1) == Push(ms.st, W32(base));
    assert Drop(st, 2) == ms.st;
  }

  /** Address and values in locals: each is stored in its place. */
  lemma {:induction false} StoreEachRuns(addr: nat, base: nat, stores: seq<StoreFn>, vs: seq<Slot>, ms: MemState,
                                         memory: seq<Byte>, callee: Callee)
    requires |vs| == |stores| && RunStores(ms.memory, base, stores, vs) == Some(memory)
    requires Columns.Holds(ms.st.locals, addr, [W32(base)] + vs)
    ensures RunMem(StoreEach(addr, addr + 1, stores), ms, callee) == Some(ms.(memory := memory))
    decreases |stores|
  {
    if stores != [] {
      var n := |stores| - 1;
      var mid := RunStores(ms.memory, base, stores[..n], vs[..n]).value;
      HoldsFirst(ms.st.locals, addr, base, vs);
      StoreEachRuns(addr, base, stores[..n], vs[..n], ms, mid, callee);
      OneStoreRuns(addr, addr + 1 + n, base, stores[n], vs[n], ms.(memory := mid), memory, callee);
      RunMemThen(StoreEach(addr, addr + 1, stores[..n]),
        [Plain(LocalGet(addr)), Plain(LocalGet(addr + 1 + n)), Store(stores[n])], ms, ms.(memory := mid), callee);
    }
  }

  lemma HoldsFirst(locals: seq<Slot>, addr: nat, base: nat, vs: seq<Slot>)
    requires vs != [] && Columns.Holds(locals, addr, [W32(base)] + vs)
    ensures Columns.Holds(locals, addr, [W32(base)] + vs[..|vs| - 1])
    ensures addr + |vs| < |locals| && locals[addr] == W32(base) && locals[addr + |vs|] == vs[|vs| - 1]
  {
    var all := [W32(base)] + vs;
    assert locals[addr + 0] == all[0] && locals[addr + |vs|] == all[|vs|];
    var short := [W32(base)] + vs[..|vs| - 1];
    forall i | 0 <= i < |vs|
      ensures locals[addr + i] == short[i]
    {
      assert locals[addr + i] == all[i];
    }
  }

  lemma OneStoreRuns(addr: nat, value: nat, base: nat, s: StoreFn, x: Slot, ms: MemState, memory: seq<Byte>, callee: Callee)
    requires addr < |ms.st.locals| && value < |ms.st.locals|
    requires ms.st.locals[addr] == W32(base) && ms.st.locals[value] == x
    requires StoreOne(ms.memory, base, s, x) == Some(memory)
    ensures RunMem([Plain(LocalGet(addr)), Plain(LocalGet(value)), Store(s)], ms, callee) == Some(ms.(memory := memory))
  {
    var one := Push(ms.st, W32(base));
    GetSteps(addr, ms.st);
    GetSteps(value, one);
    StoreSteps(s, ms, base, x, memory, callee);
    hide Step, StoreOne;
    RunMemOne(Plain(LocalGet(addr)), ms, callee);
    RunMemOne(Plain(LocalGet(value)), ms.(st := one), callee);
    RunMemOne(Store(s), ms.(st := Push(one, x)), callee);
    RunMemThen([Plain(LocalGet(value))], [Store(s)], ms.(st := one), ms.(st := Push(one, x)), callee);
    RunMemThen([Plain(LocalGet(addr))], [Plain(LocalGet(value)), Store(s)], ms, ms.(st := one), callee);
    assert [Plain(LocalGet(addr))] + [Plain(LocalGet(value)), Store(s)] == [Plain(LocalGet(addr)), Plain(LocalGet(value)), Store(s)];
    assert [Plain(LocalGet(value))] + [Store(s)] == [Plain(LocalGet(value)), Store(s)];
  }

  /** Locals after spilling. */
  function Spilled(locals: seq<Slot>, addr: nat, base: nat, vs: seq<Slot>): seq<Slot>
    requires addr + 1 + |vs| <= |locals|
  {
    Columns.Written(locals, addr, [W32(base)] + vs)
  }

  /** The store code leaves the stack below the address, and stores every slot. */
  lemma StoreCodeRuns(addr: nat, base: nat, stores: seq<StoreFn>, vs: seq<Slot>, ts: seq<ValType>, below: seq<Slot>,
                      ms: MemState, memory: seq<Byte>, callee: Callee)
    requires |vs| == |stores| > 0 && OfTypes(vs, ts) && base < TWO32
    requires ms.st.stack == below + [W32(base)] + vs
    requires |stores| > 1 ==> Columns.Settable(ms.st.locals, addr, [V32] + ts)
    requires RunStores(ms.memory, base, stores, vs) == Some(memory)
    ensures var r := RunMem(StoreCode(addr, stores), ms, callee);
            && r.Some? && r.value.memory == memory && r.value.st.stack == below
            && r.value.st.globals == ms.st.globals && r.value.st.events == ms.st.events
            && |r.value.st.locals| == |ms.st.locals|
            && forall x :: 0 <= x < |ms.st.locals| && x < addr ==> r.value.st.locals[x] == ms.st.locals[x]
  {
    if |stores| == 1 {
      assert stores[..0] == [] && vs[..0] == [] && RunStores(ms.memory, base, [], []) == Some(ms.memory);
      var ms0 := ms.(st := ms.st.(stack := below));
      assert Push(Push(ms0.st, W32(base)), vs[0]).stack == ms.st.stack;
      StoreSteps(stores[0], ms0, base, vs[0], memory, callee);
      RunMemOne(Store(stores[0]), ms, callee);
    } else {
      ManyStoresRun(addr, base, stores, vs, ts, below, ms, memory, callee);
    }
  }

  lemma ManyStoresRun(addr: nat, base: nat, stores: seq<StoreFn>, vs: seq<Slot>, ts: seq<ValType>, below: seq<Slot>,
                      ms: MemState, memory: seq<Byte>, callee: Callee)
    requires |vs| == |stores| > 1 && OfTypes(vs, ts) && base < TWO32
    requires ms.st.stack == below + [W32(base)] + vs
    requires Columns.Settable(ms.st.locals, addr, [V32] + ts)
    requires RunStores(ms.memory, base, stores, vs) == Some(memory)
    ensures RunMem(StoreCode(addr, stores), ms, callee)
         == Some(MemState(State(below, Spilled(ms.st.locals, addr, base, vs), ms.st.globals, ms.st.events), memory))
  {
    hide RunStores, StoreEach, Columns.SpillCode, Step, Exec, RunMem, MemStep;
    var locals := ms.st.locals;
    SettableTail(locals, addr, ts);
    Columns.SpillRuns(addr + 1, below + [W32(base)], vs, ts, ms.st);
    var st1 := ms.st.(stack := below + [W32(base)], locals := Columns.Written(locals, addr + 1, vs));
    PlainsRun(Columns.SpillCode(addr + 1, |vs|), ms, callee, st1);
    var st2 := State(below, Spilled(locals, addr, base, vs), ms.st.globals, ms.st.events);
    SetAddress(addr, base, below, vs, locals, st1);
    assert st1.(stack := below, locals := st1.locals[addr := W32(base)]) == st2;
    AddressStep(addr, ms, st1, st2, callee);
    RunMemThen(Plains(Columns.SpillCode(addr + 1, |vs|)), [Plain(LocalSet(addr))], ms, ms.(st := st1), callee);
    StoreEachRuns(addr, base, stores, vs, ms.(st := st2), memory, callee);
    RunMemThen(Plains(Columns.SpillCode(addr + 1, |vs|)) + [Plain(LocalSet(addr))], StoreEach(addr, addr + 1, stores),
      ms, ms.(st := st2), callee);
  }

  lemma AddressStep(addr: nat, ms: MemState, st1: State, st2: State, callee: Callee)
    requires Step(LocalSet(addr), st1) == Some(st2)
    ensures RunMem([Plain(LocalSet(addr))], ms.(st := st1), callee) == Some(ms.(st := st2))
  {
    RunMemOne(Plain(LocalSet(addr)), ms.(st := st1), callee);
  }

  lemma SettableTail(locals: seq<Slot>, addr: nat, ts: seq<ValType>)
    requires Columns.Settable(locals, addr, [V32] + ts)
    ensures Columns.Settable(locals, addr + 1, ts) && addr < |locals| && locals[addr].W32?
  {
    var all := [V32] + ts;
    assert OfType(locals[addr + 0], all[0]);
    forall i | 0 <= i < |ts|
      ensures OfType(locals[addr + 1 + i], ts[i])
    {
      assert OfType(locals[addr + (i + 1)], all[i + 1]);
    }
  }

  lemma SetAddress(addr: nat, base: nat, below: seq<Slot>, vs: seq<Slot>, locals: seq<Slot>, st: State)
    requires addr + 1 + |vs| <= |locals| && locals[addr].W32?
    requires st.stack == below + [W32(base)] && st.locals == Columns.Written(locals, addr + 1, vs)
    ensures Step(LocalSet(addr), st) == Some(st.(stack := below, locals := st.locals[addr := W32(base)]))
    ensures st.locals[addr := W32(base)] == Spilled(locals, addr, base, vs)
    ensures Columns.Holds(Spilled(locals, addr, base, vs), addr, [W32(base)] + vs)
  {
    SetSteps(addr, st.(stack := below), W32(base));
    assert Push(st.(stack := below), W32(base)) == st;
  }

  // ---- The wrapper.

  const MAX_FLAT_PARAMS: nat := 16
  const MAX_FLAT_RESULTS: nat := 1

  datatype Export = Direct | Wrapped(code: seq<MemInstr>, added: seq<ValType>, slot: nat) | TooManyParams

  function Gets(n: nat): seq<Instr> {
    if n == 0 then [] else Gets(n - 1) + [LocalGet(n - 1)]
  }

  function WrapperCode(params: nat, result: Ty, slot: nat): seq<MemInstr>
    requires Storable(result)
  {
    (([Plain(I32Const(slot))] + Plains(Gets(params))) + [CallCore])
      + (StoreCode(params, Stores(result, 0)) + [Plain(I32Const(slot))])
  }

  /** Export a core function: directly when its signature is flat, behind a wrapper when
      only its results are not. At most 16 parameters and one result are passed flat, as
      section 'Flattening' of the Canonical ABI says. */
  method MakeExportWrapper(params: nat, results: nat, result: Option<Ty>, memory: StaticMemory) returns (e: Export)
    requires memory.Valid() && (params <= 16 && results > 1 ==> result.Some? && Storable(result.value))
    modifies memory
    ensures memory.Valid()
    ensures params > 16 <==> e.TooManyParams?
    ensures params <= 16 && results <= 1 <==> e.Direct?
    ensures !e.Wrapped? ==> memory.slots == old(memory.slots)
    ensures e.Wrapped? ==> Aligned(e.slot, Align(result.value)) && e.code == WrapperCode(params, result.value, e.slot)
    ensures e.Wrapped? ==> memory.slots == old(memory.slots) + [(e.slot, e.slot + Size(result.value))]
    ensures e.Wrapped? ==> e.added == if |Stores(result.value, 0)| > 1 then [V32] + Flat(result.value) else []
  {
    hide Align, Size, AlignTo, Aligned, Stores, Storable, HasLayout, Flat, StoreCode, Gets;
    if params <= MAX_FLAT_PARAMS && results <= MAX_FLAT_RESULTS {
      return Direct;
    }
    if params > MAX_FLAT_PARAMS {
      return TooManyParams;
    }
    var ty := result.value;
    StorableHasLayout(ty);
    AlignIsPower(ty);
    var size := ElemSize(ty);
    var align := Alignment(ty);
    var slot := memory.AllocStatic(size, align);
    var code := [Plain(I32Const(slot))];
    var gets := PushParams(params);
    code := code + gets;
    code := code + [CallCore];
    var store, added := ComponentStore(ty, 0, params);
    code := code + (store + [Plain(I32Const(slot))]);
    e := Wrapped(code, added, slot);
  }

  method PushParams(params: nat) returns (code: seq<MemInstr>)
    ensures code == Plains(Gets(params))
  {
    code := [];
    for i := 0 to params
      invariant code == Plains(Gets(i))
    {
      assert Plains(Gets(i + 1)) == Plains(Gets(i)) + [Plain(LocalGet(i))];
      code := code + [Plain(LocalGet(i))];
    }
  }

  lemma {:induction false} GetsRun(n: nat, st: State)
    requires n <= |st.locals|
    ensures Exec(Gets(n), st) == Some(st.(stack := st.stack + st.locals[..n]))
  {
    hide Exec, Step;
    if n == 0 {
      assert st.stack + st.locals[..0] == st.stack;
      ExecNone(st);
    } else {
      var mid := st.(stack := st.stack + st.locals[..n - 1]);
      GetsRun(n - 1, st);
      GetSteps(n - 1, mid);
      ExecOne(LocalGet(n - 1), mid);
      ExecThen(Gets(n - 1), [LocalGet(n - 1)], st, mid);
      assert mid.stack + [st.locals[n - 1]] == st.stack + st.locals[..n];
    }
  }

  lemma ExecNone(st: State)
    ensures Exec([], st) == Some(st)
  {
  }

  /** Up to the call: the slot's address stays under the results. */
  lemma CallRuns(params: nat, slot: nat, ms: MemState, callee: Callee)
    requires ms.st.stack == [] && params <= |ms.st.locals| && callee.params == params && slot < TWO32
    ensures RunMem(([Plain(I32Const(slot))] + Plains(Gets(params))) + [CallCore], ms, callee)
         == Some(MemState(State([W32(slot)] + callee.results, ms.st.locals, callee.globals, callee.events), callee.memory))
  {
    hide RunMem, Exec;
    var st1 := Push(ms.st, W32(slot));
    RunMemOne(Plain(I32Const(slot)), ms, callee);
    GetsRun(params, st1);
    var st2 := st1.(stack := st1.stack + ms.st.locals[..params]);
    PlainsRun(Gets(params), ms.(st := st1), callee, st2);
    RunMemThen([Plain(I32Const(slot))], Plains(Gets(params)), ms, ms.(st := st1), callee);
    RunMemOne(CallCore, ms.(st := st2), callee);
    assert st2.stack[..|st2.stack| - params] == [W32(slot)];
    RunMemThen([Plain(I32Const(slot))] + Plains(Gets(params)), [CallCore], ms, ms.(st := st2), callee);
  }

  /** The whole wrapper: the results are stored, and the slot's address is left. */
  lemma WrapperRuns(c: Ty, params: nat, slot: nat, ts: seq<ValType>, ms: MemState, memory: seq<Byte>, callee: Callee)
      returns (done: MemState)
    requires Storable(c) && ms.st.stack == [] && callee.params == params <= |ms.st.locals| && slot < TWO32
    requires |callee.results| == |Stores(c, 0)| > 0 && OfTypes(callee.results, ts)
    requires |Stores(c, 0)| > 1 ==> Columns.Settable(ms.st.locals, params, [V32] + ts)
    requires RunStores(callee.memory, slot, Stores(c, 0), callee.results) == Some(memory)
    ensures RunMem(WrapperCode(params, c, slot), ms, callee) == Some(done)
    ensures done.st.stack == [W32(slot)] && done.memory == memory
  {
    hide RunMem, RunStores, Stores, StoreCode, Storable, Columns.Settable, OfTypes, Gets;
    CallRuns(params, slot, ms, callee);
    var called := MemState(State([W32(slot)] + callee.results, ms.st.locals, callee.globals, callee.events), callee.memory);
    assert [] + [W32(slot)] + callee.results == called.st.stack;
    StoreCodeRuns(params, slot, Stores(c, 0), callee.results, ts, [], called, memory, callee);
    var stored := RunMem(StoreCode(params, Stores(c, 0)), called, callee).value;
    done := stored.(st := Push(stored.st, W32(slot)));
    RunMemOne(Plain(I32Const(slot)), stored, callee);
    RunMemThen(StoreCode(params, Stores(c, 0)), [Plain(I32Const(slot))], called, stored, callee);
    RunMemThen(([Plain(I32Const(slot))] + Plains(Gets(params))) + [CallCore],
      StoreCode(params, Stores(c, 0)) + [Plain(I32Const(slot))], ms, called, callee);
  }

  /** What the host gets from a call of the wrapper: the address of the slot, at which
      loading gives the value. */
  ghost predicate Returns(r: Option<MemState>, slot: nat, c: Ty, v: AbiVal, memory: seq<Byte>)
    requires Storable(c) && !HasHandle(c)
  {
    r.Some? && r.value.st.stack == [W32(slot)] && Stored(memory, r.value.memory, c, v, slot)
  }

  /** The host reads back exactly the value the core function returned, and no other
      byte of memory has changed since. */
  lemma WrapperReturns(t: S.Type, v: S.Value, handle: Ty, c: Ty, params: nat, slot: nat, ms: MemState, callee: Callee)
    requires S.HasType(v, t) && Simple(t) && ComponentOf(t, handle) == Some(c) && Storable(c) && (handle.Own? || handle.Borrow?)
    requires callee.params == params <= |ms.st.locals| && callee.results == FlatV(v, t) && ms.st.stack == []
    requires |Stores(c, 0)| > 1 ==> Columns.Settable(ms.st.locals, params, [V32] + Flat(c))
    requires Aligned(slot, Align(c)) && slot + Size(c) <= |callee.memory| && slot < TWO32
    ensures !HasHandle(c) && !v.UnitV?
    ensures Returns(RunMem(WrapperCode(params, c, slot), ms, callee), slot, c, ComponentVal(v, t, handle), callee.memory)
  {
    hide *;
    SimpleNoHandle(v, t, handle);
    LoweringAgrees(v, t, handle);
    StoreThenLoad(callee.memory, slot, c, 0, ComponentVal(v, t, handle));
    FlatTyped(v, t);
    FlatAgrees(t, handle);
    StoresNonempty(c, 0);
    var memory := RunStores(callee.memory, slot, Stores(c, 0), FlatV(v, t)).value;
    var done := WrapperRuns(c, params, slot, Flat(c), ms, memory, callee);
    ReturnsStored(done, slot, c, ComponentVal(v, t, handle), callee.memory);
  }

  lemma ReturnsStored(done: MemState, slot: nat, c: Ty, v: AbiVal, memory: seq<Byte>)
    requires Storable(c) && !HasHandle(c) && done.st.stack == [W32(slot)] && Stored(memory, done.memory, c, v, slot)
    ensures Returns(Some(done), slot, c, v, memory)
  {
  }

  lemma {:induction false} StoresNonempty(t: Ty, offset: nat)
    requires Storable(t)
    ensures |Stores(t, offset)| > 0
    decreases t
  {
    if IsRecord(t) {
      var n := |Parts(t)| - 1;
      StoresNonempty(Parts(t)[n], offset + FieldAt(t, n));
    }
  }
}

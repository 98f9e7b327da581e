/** Yields while functions are compiled: every yield gets a number, globals of its
    own and a continuation, and resuming finds all three again (`lib.rs`). */
module YieldPoints {
  import opened Options
  import opened ControlFlow
  import opened Wasm
  import opened Flatten
  import opened Ir
  import opened Emission
  import opened MatchEmit
  import opened Suspension

  /** The globals that one yield spills its locals to, and its resume block. */
  datatype Spill = Spill(base: nat, types: seq<ValType>, block: nat)

  datatype CoreFunction = FromBlocks(blocks: seq<BasicBlock>, entry: nat, locals: seq<ValType>) | ResumeBody(code: seq<DispatchOp>)

  /** A method's identity: a digest of 32 bytes, pushed as four numbers. */
  datatype MethodId = MethodId(a: int, b: int, c: int, d: int)

  const IMPLEMENTS: string := "[method]utxo-context.implements-method"

  /** What is emitted before suspending: number, locals, and one call to the host for
      each method that the yield exposes. */
  function YieldCode(id: nat, yieldGlobal: nat, base: nat, n: nat, contextGlobal: nat, methods: seq<MethodId>): seq<Instr> {
    ([I32Const(id), GlobalSet(yieldGlobal)] + SaveCode(base, n)) + AnnounceCode(contextGlobal, methods)
  }

  function AnnounceCode(contextGlobal: nat, methods: seq<MethodId>): seq<Instr> {
    if methods == [] then []
    else AnnounceCode(contextGlobal, methods[..|methods| - 1]) + AnnounceOne(contextGlobal, methods[|methods| - 1])
  }

  function AnnounceOne(contextGlobal: nat, m: MethodId): seq<Instr> {
    [GlobalGet(contextGlobal), I64Const(m.a), I64Const(m.b), I64Const(m.c), I64Const(m.d), CallHost(IMPLEMENTS, 5)]
  }

  /** What the host is told: each method, in order. */
  function Announced(context: Slot, methods: seq<MethodId>): (r: seq<Event>)
    ensures |r| == |methods|
    ensures forall k :: 0 <= k < |r| ==>
              r[k] == HostCalled("[method]utxo-context.implements-method",
                                 [context, W64(methods[k].a % TWO64), W64(methods[k].b % TWO64),
                                  W64(methods[k].c % TWO64), W64(methods[k].d % TWO64)])
  {
    if methods == [] then []
    else
      var m := methods[|methods| - 1];
      Announced(context, methods[..|methods| - 1])
        + [HostCalled(IMPLEMENTS, [context, W64(m.a % TWO64), W64(m.b % TWO64), W64(m.c % TWO64), W64(m.d % TWO64)])]
  }

  /** The yields so far have disjoint globals, past the yield number. */
  ghost predicate SpillsApart(globals: seq<ValType>, yieldGlobal: nat, points: seq<Spill>) {
    && yieldGlobal < |globals| && globals[yieldGlobal] == V32
    && (forall k :: 0 <= k < |points| ==> SpillIn(globals, yieldGlobal, points[k]))
    && (forall j, k :: 0 <= j < k < |points| ==> points[j].base + |points[j].types| <= points[k].base)
  }

  predicate SpillIn(globals: seq<ValType>, yieldGlobal: nat, p: Spill) {
    && yieldGlobal < p.base && p.base + |p.types| <= |globals|
    && globals[p.base..p.base + |p.types|] == p.types && NoFloat(p.types)
  }

  predicate Resumes(blocks: seq<BasicBlock>, block: nat, p: Spill) {
    p.block == block && block < |blocks| && RestoreCode(p.base, p.types, |p.types|) <= blocks[block].instructions
  }

  /** The continuation of a finished yield: it starts in the yield's resume block,
      which starts by restoring the locals. */
  predicate Continues(functions: seq<CoreFunction>, func: nat, p: Spill) {
    && func < |functions| && functions[func].FromBlocks?
    && p.types <= functions[func].locals
    && Resumes(functions[func].blocks, functions[func].entry, p)
  }

  /** The resume blocks belong to the points from `first` on. */
  predicate AllResume(blocks: seq<BasicBlock>, resumes: seq<nat>, first: nat, points: seq<Spill>, types: seq<ValType>) {
    && first + |resumes| == |points|
    && forall j :: 0 <= j < |resumes| ==> Resumes(blocks, resumes[j], points[first + j]) && points[first + j].types <= types
  }

  class Compiler {
    const yieldGlobal: nat
    const contextGlobal: nat
    var globals: seq<ValType>
    var yieldId: nat
    var yieldFuncs: seq<nat>
    var functions: seq<CoreFunction>
    ghost var points: seq<Spill>

    /** Yield number k + 1 is the k-th point; the finished ones have a function. */
    ghost predicate Valid()
      reads this
    {
      && |points| == yieldId && |yieldFuncs| <= yieldId
      && SpillsApart(globals, yieldGlobal, points)
      && yieldGlobal < contextGlobal < |globals| && globals[contextGlobal] == V32
      && (forall k :: 0 <= k < |points| ==> contextGlobal < points[k].base)
      && forall k :: 0 <= k < |yieldFuncs| ==> Continues(functions, yieldFuncs[k], points[k])
    }

    /** The yields of the function under construction are the last ones. */
    ghost predicate Inside(func: StFunction)
      reads this, func, func.cfg
    {
      && yieldId == |yieldFuncs| + |func.cfg.resumes| && |points| == yieldId
      && AllResume(func.cfg.blocks, func.cfg.resumes, |yieldFuncs|, points, func.Types())
    }

    /** Declare globals; all start as zero. */
    method AddGlobals(types: seq<ValType>) returns (idx: nat)
      modifies `globals
      ensures idx == |old(globals)| && globals == old(globals) + types
    {
      idx := |globals|;
      for i := 0 to |types|
        invariant globals == old(globals) + types[..i]
      {
        globals := globals + [types[i]];
      }
      assert types[..|types|] == types;
    }

    /** A `yield` in block bb: number it, spill all locals, suspend; the code after it
        goes into a new block, which restores the locals first. */
    method VisitYield(func: StFunction, bb: nat, methods: seq<MethodId>) returns (bbResume: nat)
      requires Valid() && func.Valid() && Inside(func) && IsOpen(func.cfg.blocks, bb) && NoFloat(func.Types())
      modifies this, func.cfg
      ensures Valid() && func.Valid() && Inside(func) && func.Types() == old(func.Types())
      ensures yieldId == old(yieldId) + 1 && yieldFuncs == old(yieldFuncs) && functions == old(functions)
      ensures globals == old(globals) + func.Types()
      ensures points == old(points) + [Spill(|old(globals)|, func.Types(), bbResume)]
      ensures bbResume == |old(func.cfg.blocks)| && func.cfg.resumes == old(func.cfg.resumes) + [bbResume]
      ensures |func.cfg.blocks| == |old(func.cfg.blocks)| + 1
      ensures forall b :: 0 <= b < bbResume && b != bb ==> SameBlock(func.cfg.blocks[b], old(func.cfg.blocks)[b])
      ensures func.cfg.blocks[bb].out == Yield(bbResume)
      ensures func.cfg.blocks[bb].instructions
           == old(func.cfg.blocks)[bb].instructions
              + YieldCode(yieldId, yieldGlobal, |old(globals)|, |func.Types()|, contextGlobal, methods)
      ensures IsOpen(func.cfg.blocks, bbResume) && func.cfg.blocks[bbResume].sealed
      ensures func.cfg.blocks[bbResume].instructions == RestoreCode(|old(globals)|, func.Types(), |func.Types()|)
    {
      hide SpillsApart, Resumes, Continues, SaveCode, RestoreCode, SameBlock, AllResume, AnnounceCode;
      ghost var blocks0, globals0, points0, resumes0 := func.cfg.blocks, globals, points, func.cfg.resumes;
      yieldId := yieldId + 1;
      var id := yieldId;
      var locals := func.Types();
      var base := AddGlobals(locals);
      var save := SaveAll(base, |locals|);
      var announce := AnnounceAll(contextGlobal, methods);
      var restore := RestoreAll(base, locals);
      bbResume := SplitBlock(func, bb, ([I32Const(id), GlobalSet(yieldGlobal)] + save) + announce, restore);
      points := points + [Spill(base, locals, bbResume)];
      MoreApart(globals0, yieldGlobal, points0, locals, bbResume);
      PointsResume(blocks0, func.cfg.blocks, bb, |yieldFuncs|, resumes0, points0, func.Types(), Spill(base, locals, bbResume));
    }

    /** Finish a function: itself, then one continuation per yield, in the order of
        the yields. */
    method FinishFunction(func: StFunction, entry: nat) returns (idx: nat)
      requires Valid() && Inside(func)
      modifies `functions, `yieldFuncs
      ensures Valid() && |yieldFuncs| == yieldId
      ensures old(yieldFuncs) <= yieldFuncs && old(functions) <= functions
      ensures idx < |functions| && functions[idx] == FromBlocks(func.cfg.blocks, entry, func.Types())
    {
      hide SpillsApart, Continues;
      ghost var first, functions0, yieldFuncs0 := |yieldFuncs|, functions, yieldFuncs;
      idx := |functions|;
      functions := functions + [FromBlocks(func.cfg.blocks, entry, func.Types())];
      StillContinue(functions0, functions, yieldFuncs, points);
      for j := 0 to |func.cfg.resumes|
        invariant |yieldFuncs| == first + j && yieldFuncs0 <= yieldFuncs
        invariant functions0 + [FromBlocks(func.cfg.blocks, entry, func.Types())] <= functions && idx == |functions0|
        invariant forall k :: 0 <= k < |yieldFuncs| ==> Continues(functions, yieldFuncs[k], points[k])
      {
        ghost var before := functions;
        functions := functions + [FromBlocks(func.cfg.blocks, func.cfg.resumes[j], func.Types())];
        StillContinue(before, functions, yieldFuncs, points);
        IsContinuation(functions, |functions| - 1, points[first + j]);
        yieldFuncs := yieldFuncs + [|functions| - 1];
      }
    }
  }

  /** End a block with a yield; the code after it goes into a new block. */
  method SplitBlock(func: StFunction, bb: nat, before: seq<Instr>, after: seq<Instr>) returns (bbResume: nat)
    requires func.Valid() && IsOpen(func.cfg.blocks, bb)
    modifies func.cfg
    ensures func.Valid() && bbResume == |old(func.cfg.blocks)| && func.cfg.resumes == old(func.cfg.resumes) + [bbResume]
    ensures |func.cfg.blocks| == |old(func.cfg.blocks)| + 1
    ensures forall b :: 0 <= b < bbResume && b != bb ==> SameBlock(func.cfg.blocks[b], old(func.cfg.blocks)[b])
    ensures func.cfg.blocks[bb].out == Yield(bbResume)
    ensures func.cfg.blocks[bb].instructions == old(func.cfg.blocks)[bb].instructions + before
    ensures IsOpen(func.cfg.blocks, bbResume) && func.cfg.blocks[bbResume].sealed
    ensures func.cfg.blocks[bbResume].instructions == after
  {
    func.cfg.Write(bb, before);
    bbResume := func.cfg.AddBlock();
    func.cfg.resumes := func.cfg.resumes + [bbResume];
    func.cfg.Seal(bbResume);
    func.cfg.Fill(bb, Yield(bbResume));
    func.cfg.Write(bbResume, after);
    assert [] + after == after;
  }

  /** Whatever else is emitted only adds code to blocks, and locals. */
  lemma AllResumeKept(blocks: seq<BasicBlock>, blocks': seq<BasicBlock>, resumes: seq<nat>, first: nat, points: seq<Spill>,
                      types: seq<ValType>, types': seq<ValType>)
    requires AllResume(blocks, resumes, first, points, types) && types <= types' && |blocks| <= |blocks'|
    requires forall b :: 0 <= b < |blocks| ==> blocks[b].instructions <= blocks'[b].instructions
    ensures AllResume(blocks', resumes, first, points, types')
  {
    forall j | 0 <= j < |resumes|
      ensures Resumes(blocks', resumes[j], points[first + j]) && points[first + j].types <= types'
    {
      assert Resumes(blocks, resumes[j], points[first + j]) && points[first + j].types <= types;
      StillResumes(blocks, blocks', resumes[j], points[first + j]);
    }
  }

  /** The resume blocks so far still start as they did, and so does the new one. */
  lemma PointsResume(blocks: seq<BasicBlock>, blocks': seq<BasicBlock>, bb: nat, first: nat, resumes: seq<nat>,
                     points: seq<Spill>, types: seq<ValType>, p: Spill)
    requires |points| == first + |resumes| && bb < |blocks| && |blocks'| == |blocks| + 1 && p.block == |blocks|
    requires forall b :: 0 <= b < |blocks| && b != bb ==> SameBlock(blocks'[b], blocks[b])
    requires blocks[bb].instructions <= blocks'[bb].instructions
    requires blocks'[p.block].instructions == RestoreCode(p.base, p.types, |p.types|) && p.types == types
    requires AllResume(blocks, resumes, first, points, types)
    ensures AllResume(blocks', resumes + [p.block], first, points + [p], types)
  {
    hide RestoreCode;
    var resumes', points' := resumes + [p.block], points + [p];
    forall j | 0 <= j < |resumes'|
      ensures Resumes(blocks', resumes'[j], points'[first + j]) && points'[first + j].types <= types
    {
      if j < |resumes| {
        assert resumes'[j] == resumes[j] && points'[first + j] == points[first + j];
        assert Resumes(blocks, resumes[j], points[first + j]) && points[first + j].types <= types;
        assert resumes[j] != bb ==> SameBlock(blocks'[resumes[j]], blocks[resumes[j]]);
        StillResumes(blocks, blocks', resumes[j], points[first + j]);
      } else {
        assert resumes'[j] == p.block && points'[first + j] == p;
        assert Resumes(blocks', p.block, p);
      }
    }
  }

  // ---- Parts of the code.

  method SaveAll(base: nat, n: nat) returns (code: seq<Instr>)
    ensures code == SaveCode(base, n)
  {
    code := [];
    for i := 0 to n
      invariant code == SaveCode(base, i)
    {
      code := code + [LocalGet(i), GlobalSet(base + i)];
    }
  }

  method AnnounceAll(contextGlobal: nat, methods: seq<MethodId>) returns (code: seq<Instr>)
    ensures code == AnnounceCode(contextGlobal, methods)
  {
    code := [];
    for i := 0 to |methods|
      invariant code == AnnounceCode(contextGlobal, methods[..i])
    {
      assert methods[..i + 1][..i] == methods[..i];
      code := code + AnnounceOne(contextGlobal, methods[i]);
    }
    assert methods[..|methods|] == methods;
  }

  method RestoreAll(base: nat, types: seq<ValType>) returns (code: seq<Instr>)
    ensures code == RestoreCode(base, types, |types|)
  {
    code := [];
    for i := 0 to |types|
      invariant code == RestoreCode(base, types, i)
    {
      var g := base + i;
      var zero := if types[i].V64? then I64Const(0) else I32Const(0);
      code := code + [GlobalGet(g), LocalSet(i), zero, GlobalSet(g)];
    }
  }

  lemma MoreApart(globals: seq<ValType>, yieldGlobal: nat, points: seq<Spill>, types: seq<ValType>, block: nat)
    requires SpillsApart(globals, yieldGlobal, points) && NoFloat(types)
    ensures SpillsApart(globals + types, yieldGlobal, points + [Spill(|globals|, types, block)])
  {
    var globals', points' := globals + types, points + [Spill(|globals|, types, block)];
    forall k | 0 <= k < |points'|
      ensures SpillIn(globals', yieldGlobal, points'[k])
    {
      if k < |points| {
        var p := points[k];
        assert SpillIn(globals, yieldGlobal, p);
        assert globals'[p.base..p.base + |p.types|] == globals[p.base..p.base + |p.types|];
      } else {
        assert globals'[|globals|..|globals| + |types|] == types;
      }
    }
  }

  lemma StillResumes(blocks: seq<BasicBlock>, blocks': seq<BasicBlock>, block: nat, p: Spill)
    requires Resumes(blocks, block, p) && block < |blocks'|
    requires blocks[block].instructions <= blocks'[block].instructions
    ensures Resumes(blocks', block, p)
  {
    hide RestoreCode;
  }

  lemma IsContinuation(functions: seq<CoreFunction>, func: nat, p: Spill)
    requires func < |functions| && functions[func].FromBlocks? && p.types <= functions[func].locals
    requires Resumes(functions[func].blocks, functions[func].entry, p)
    ensures Continues(functions, func, p)
  {
  }

  lemma StillContinue(functions: seq<CoreFunction>, functions': seq<CoreFunction>, yieldFuncs: seq<nat>, points: seq<Spill>)
    requires functions <= functions' && |yieldFuncs| <= |points|
    requires forall k :: 0 <= k < |yieldFuncs| ==> Continues(functions, yieldFuncs[k], points[k])
    ensures forall k :: 0 <= k < |yieldFuncs| ==> Continues(functions', yieldFuncs[k], points[k])
  {
    hide Resumes;
    forall k | 0 <= k < |yieldFuncs|
      ensures Continues(functions', yieldFuncs[k], points[k])
    {
      assert Continues(functions, yieldFuncs[k], points[k]);
      assert functions'[yieldFuncs[k]] == functions[yieldFuncs[k]];
    }
  }

  // ---- Suspending and resuming.

  /** Suspended at a yield: its number and its spilled locals are in the globals. */
  predicate SuspendedAt(globals: seq<Slot>, yieldGlobal: nat, k: nat, p: Spill, locals: seq<Slot>) {
    && yieldGlobal < |globals| && globals[yieldGlobal] == W32((k + 1) % TWO32)
    && |p.types| <= |locals| && p.base + |p.types| <= |globals|
    && globals[p.base..p.base + |p.types|] == locals[..|p.types|]
  }

  /** The code at a yield suspends: whatever the locals, they are spilled, and the host
      is told of every method that the yield exposes. */
  lemma YieldSuspends(types: seq<ValType>, yieldGlobal: nat, k: nat, p: Spill, contextGlobal: nat, methods: seq<MethodId>,
                      st: State) returns (st': State)
    requires OfTypes(st.globals, types) && SpillIn(types, yieldGlobal, p) && types[yieldGlobal] == V32
    requires yieldGlobal < contextGlobal < p.base
    requires TypedAt(st.locals, 0, p.types)
    ensures Exec(YieldCode(k + 1, yieldGlobal, p.base, |p.types|, contextGlobal, methods), st) == Some(st')
    ensures SuspendedAt(st'.globals, yieldGlobal, k, p, st.locals) && OfTypes(st'.globals, types)
    ensures st'.stack == st.stack && st'.locals == st.locals
    ensures st'.events == st.events + Announced(st.globals[contextGlobal], methods)
    ensures forall x :: 0 <= x < |types| && x != yieldGlobal && !(p.base <= x < p.base + |p.types|) ==>
              st'.globals[x] == st.globals[x]
  {
    hide Exec, AnnounceCode, SaveCode, OfTypes, SuspendedAt;
    var saved := LocalsSaved(types, yieldGlobal, k, p, st);
    AnnounceRuns(contextGlobal, methods, saved);
    st' := saved.(events := saved.events + Announced(st.globals[contextGlobal], methods));
    ExecThen([I32Const(k + 1), GlobalSet(yieldGlobal)] + SaveCode(p.base, |p.types|), AnnounceCode(contextGlobal, methods),
      st, saved);
  }

  lemma {:induction false} AnnounceRuns(contextGlobal: nat, methods: seq<MethodId>, st: State)
    requires contextGlobal < |st.globals|
    ensures Exec(AnnounceCode(contextGlobal, methods), st)
         == Some(st.(events := st.events + Announced(st.globals[contextGlobal], methods)))
    decreases |methods|
  {
    hide Step;
    if methods == [] {
      assert st.events + [] == st.events;
    } else {
      var n := |methods| - 1;
      var c := st.globals[contextGlobal];
      AnnounceRuns(contextGlobal, methods[..n], st);
      var mid := st.(events := st.events + Announced(c, methods[..n]));
      OneAnnounced(contextGlobal, methods[n], mid);
      ExecThen(AnnounceCode(contextGlobal, methods[..n]), AnnounceOne(contextGlobal, methods[n]), st, mid);
      assert mid.events + Announced(c, [methods[n]]) == st.events + Announced(c, methods);
    }
  }

  lemma OneAnnounced(contextGlobal: nat, m: MethodId, st: State)
    requires contextGlobal < |st.globals|
    ensures Exec(AnnounceOne(contextGlobal, m), st)
         == Some(st.(events := st.events + Announced(st.globals[contextGlobal], [m])))
  {
    hide *;
    var c := st.globals[contextGlobal];
    var host := [CallHost(IMPLEMENTS, 5)];
    var s1, s5 := Push(st, c), PushedId(Push(st, c), m);
    GlobalGetSteps(contextGlobal, st);
    StepThen(GlobalGet(contextGlobal), IdCode(m) + host, st, s1);
    IdPushed(m, host, s1);
    ExecOne(CallHost(IMPLEMENTS, 5), s5);
    HostTakesId(st, c, m);
    AnnounceSplits(contextGlobal, m);
  }

  /** A method identifier is four words. */
  function IdCode(m: MethodId): seq<Instr> {
    [I64Const(m.a), I64Const(m.b), I64Const(m.c), I64Const(m.d)]
  }

  function PushedId(st: State, m: MethodId): State {
    Push(Push(Push(Push(st, W64(m.a % TWO64)), W64(m.b % TWO64)), W64(m.c % TWO64)), W64(m.d % TWO64))
  }

  lemma AnnounceSplits(contextGlobal: nat, m: MethodId)
    ensures AnnounceOne(contextGlobal, m) == [GlobalGet(contextGlobal)] + (IdCode(m) + [CallHost(IMPLEMENTS, 5)])
  {
  }

  lemma IdPushed(m: MethodId, rest: seq<Instr>, st: State)
    ensures Exec(IdCode(m) + rest, st) == Exec(rest, PushedId(st, m))
  {
    hide Exec, Step, Push;
    var rest3 := [I64Const(m.d)] + rest;
    var rest2 := [I64Const(m.c)] + rest3;
    var rest1 := [I64Const(m.b)] + rest2;
    var s1 := ConstThen(m.a, rest1, st);
    var s2 := ConstThen(m.b, rest2, s1);
    var s3 := ConstThen(m.c, rest3, s2);
    var s4 := ConstThen(m.d, rest, s3);
    assert IdCode(m) + rest == [I64Const(m.a)] + rest1;
  }

  lemma ConstThen(n: int, rest: seq<Instr>, st: State) returns (next: State)
    ensures next == Push(st, W64(n % TWO64)) && Exec([I64Const(n)] + rest, st) == Exec(rest, next)
  {
    hide Exec;
    next := Push(st, W64(n % TWO64));
    StepThen(I64Const(n), rest, st, next);
  }

  lemma HostTakesId(st: State, c: Slot, m: MethodId)
    ensures Step(CallHost(IMPLEMENTS, 5), PushedId(Push(st, c), m)) == Some(st.(events := st.events + Announced(c, [m])))
  {
    hide Step, Push, Announced;
    HostTakesFive(st, c, W64(m.a % TWO64), W64(m.b % TWO64), W64(m.c % TWO64), W64(m.d % TWO64));
    AnnouncedOne(c, m);
  }

  lemma AnnouncedOne(c: Slot, m: MethodId)
    ensures Announced(c, [m])
         == [HostCalled(IMPLEMENTS, [c, W64(m.a % TWO64), W64(m.b % TWO64), W64(m.c % TWO64), W64(m.d % TWO64)])]
  {
    assert [m][..0] == [];
  }

  lemma HostTakesFive(st: State, a: Slot, b: Slot, c: Slot, d: Slot, e: Slot)
    ensures Step(CallHost(IMPLEMENTS, 5), Push(Push(Push(Push(Push(st, a), b), c), d), e))
         == Some(st.(events := st.events + [HostCalled(IMPLEMENTS, [a, b, c, d, e])]))
  {
    var all := Push(Push(Push(Push(Push(st, a), b), c), d), e).stack;
    assert all == st.stack + [a, b, c, d, e];
    assert all[|st.stack|..] == [a, b, c, d, e] && all[..|st.stack|] == st.stack;
  }

  lemma LocalsSaved(types: seq<ValType>, yieldGlobal: nat, k: nat, p: Spill, st: State) returns (st': State)
    requires OfTypes(st.globals, types) && SpillIn(types, yieldGlobal, p) && types[yieldGlobal] == V32
    requires TypedAt(st.locals, 0, p.types)
    ensures Exec([I32Const(k + 1), GlobalSet(yieldGlobal)] + SaveCode(p.base, |p.types|), st) == Some(st')
    ensures SuspendedAt(st'.globals, yieldGlobal, k, p, st.locals) && OfTypes(st'.globals, types)
    ensures st' == st.(globals := st'.globals) && |st'.globals| == |st.globals| == |types|
    ensures forall x :: 0 <= x < |types| && x != yieldGlobal && !(p.base <= x < p.base + |p.types|) ==>
              st'.globals[x] == st.globals[x]
  {
    hide Exec, SaveCode, Step;
    var c := W32((k + 1) % TWO32);
    var mid := st.(globals := st.globals[yieldGlobal := c]);
    assert OfType(st.globals[yieldGlobal], types[yieldGlobal]);
    NumberStored(k, yieldGlobal, st, mid);
    SpillTyped(types, yieldGlobal, p, st, mid);
    SaveRuns(p.base, p.types, |p.types|, mid);
    st' := mid.(globals := Replace(mid.globals, p.base, st.locals[..|p.types|]));
    ExecThen([I32Const(k + 1), GlobalSet(yieldGlobal)], SaveCode(p.base, |p.types|), st, mid);
    forall i | 0 <= i < |types|
      ensures OfType(st'.globals[i], types[i])
    {
      if p.base <= i < p.base + |p.types| {
        assert OfType(st.locals[0 + (i - p.base)], p.types[i - p.base]);
        assert types[p.base..p.base + |p.types|][i - p.base] == types[i];
      } else {
        assert OfType(st.globals[i], types[i]);
      }
    }
  }

  lemma NumberStored(k: nat, yieldGlobal: nat, st: State, mid: State)
    requires yieldGlobal < |st.globals| && st.globals[yieldGlobal].W32?
    requires mid == st.(globals := st.globals[yieldGlobal := W32((k + 1) % TWO32)])
    ensures Exec([I32Const(k + 1), GlobalSet(yieldGlobal)], st) == Some(mid)
  {
    hide Exec;
    var c := W32((k + 1) % TWO32);
    GlobalSetSteps(yieldGlobal, st, c);
    StepThen(I32Const(k + 1), [GlobalSet(yieldGlobal)], st, Push(st, c));
    ExecOne(GlobalSet(yieldGlobal), Push(st, c));
    assert [I32Const(k + 1), GlobalSet(yieldGlobal)] == [I32Const(k + 1)] + [GlobalSet(yieldGlobal)];
  }

  lemma SpillTyped(types: seq<ValType>, yieldGlobal: nat, p: Spill, st: State, mid: State)
    requires OfTypes(st.globals, types) && SpillIn(types, yieldGlobal, p)
    requires |mid.globals| == |st.globals| && forall x :: 0 <= x < |types| && x != yieldGlobal ==> mid.globals[x] == st.globals[x]
    ensures TypedAt(mid.globals, p.base, p.types)
  {
    forall i | 0 <= i < |p.types|
      ensures OfType(mid.globals[p.base + i], p.types[i])
    {
      assert OfType(st.globals[p.base + i], types[p.base + i]);
      assert types[p.base..p.base + |p.types|][i] == types[p.base + i];
    }
  }

  /** Resuming a suspended resource calls the continuation of the yield it was
      suspended at, and that continuation begins by restoring every local that
      existed at the yield, and zeroing the globals that held them. */
  lemma SuspendedResumes(types: seq<ValType>, yieldGlobal: nat, contextGlobal: nat, points: seq<Spill>, yieldFuncs: seq<nat>,
                         functions: seq<CoreFunction>, lo: nat, hi: nat, k: nat, p: Spill, f: CoreFunction,
                         globals: seq<Slot>, locals: seq<Slot>, fresh0: seq<Slot>) returns (resumed: State)
    requires SpillsApart(types, yieldGlobal, points) && hi <= |yieldFuncs| <= |points| && hi < TWO32 && lo <= k < hi
    requires p == points[k] && Continues(functions, yieldFuncs[k], p) && f == functions[yieldFuncs[k]]
    requires OfTypes(globals, types) && SuspendedAt(globals, yieldGlobal, k, p, locals)
    requires OfTypes(fresh0, f.locals) && contextGlobal < |globals|
    ensures RunDispatch(ResumeCode(contextGlobal, yieldGlobal, yieldFuncs, lo, hi), State([], [], globals, []))
         == Calls(yieldFuncs[k], [HostCalled("[method]utxo-context.resume", [globals[contextGlobal]])])
    ensures f.entry == p.block < |f.blocks| && RestoreCode(p.base, p.types, |p.types|) <= f.blocks[f.entry].instructions
    ensures Exec(RestoreCode(p.base, p.types, |p.types|), State([], fresh0, globals, [])) == Some(resumed)
    ensures |p.types| <= |resumed.locals| == |fresh0| && resumed.locals[..|p.types|] == locals[..|p.types|]
    ensures resumed.globals == Replace(globals, p.base, ZeroSlots(p.types))
  {
    hide Exec, ResumeCode, RunDispatch, RestoreCode, SpillsApart, OfTypes, SpillIn;
    PointAt(types, yieldGlobal, points, k);
    YieldGlobalTyped(types, yieldGlobal, globals);
    ResumeCallsHost(contextGlobal, yieldGlobal, yieldFuncs, lo, hi, State([], [], globals, []));
    resumed := LocalsComeBack(types, yieldGlobal, p, f.locals, globals, fresh0);
  }

  lemma YieldGlobalTyped(types: seq<ValType>, yieldGlobal: nat, globals: seq<Slot>)
    requires OfTypes(globals, types) && yieldGlobal < |types| && types[yieldGlobal] == V32
    ensures yieldGlobal < |globals| && globals[yieldGlobal].W32?
  {
    assert OfType(globals[yieldGlobal], types[yieldGlobal]);
  }

  lemma LocalsComeBack(types: seq<ValType>, yieldGlobal: nat, p: Spill, locals: seq<ValType>, globals: seq<Slot>,
                       fresh0: seq<Slot>) returns (resumed: State)
    requires SpillIn(types, yieldGlobal, p) && p.types <= locals
    requires OfTypes(globals, types) && OfTypes(fresh0, locals) && p.base + |p.types| <= |globals|
    ensures Exec(RestoreCode(p.base, p.types, |p.types|), State([], fresh0, globals, [])) == Some(resumed)
    ensures |p.types| <= |resumed.locals| == |fresh0|
    ensures resumed.locals[..|p.types|] == globals[p.base..p.base + |p.types|]
    ensures resumed.globals == Replace(globals, p.base, ZeroSlots(p.types))
  {
    hide Exec, RestoreCode, SpillIn;
    var st := State([], fresh0, globals, []);
    FreshTyped(fresh0, locals, p.types);
    GlobalsTyped(types, yieldGlobal, p, globals);
    RestoreRuns(p.base, p.types, |p.types|, st);
    resumed := Restored(st, p.base, p.types, |p.types|);
    assert ZeroSlots(p.types)[..|p.types|] == ZeroSlots(p.types);
    assert resumed.locals[..|p.types|] == globals[p.base..p.base + |p.types|];
  }

  lemma PointAt(types: seq<ValType>, yieldGlobal: nat, points: seq<Spill>, k: nat)
    requires SpillsApart(types, yieldGlobal, points) && k < |points|
    ensures yieldGlobal < |types| && types[yieldGlobal] == V32 && SpillIn(types, yieldGlobal, points[k])
  {
  }

  lemma FreshTyped(slots: seq<Slot>, types: seq<ValType>, prefix: seq<ValType>)
    requires OfTypes(slots, types) && prefix <= types
    ensures TypedAt(slots, 0, prefix)
  {
    forall i | 0 <= i < |prefix|
      ensures OfType(slots[0 + i], prefix[i])
    {
      assert types[i] == prefix[i];
    }
  }

  lemma GlobalsTyped(types: seq<ValType>, yieldGlobal: nat, p: Spill, globals: seq<Slot>)
    requires OfTypes(globals, types) && SpillIn(types, yieldGlobal, p)
    ensures TypedAt(globals, p.base, p.types)
  {
    forall i | 0 <= i < |p.types|
      ensures OfType(globals[p.base + i], p.types[i])
    {
      assert types[p.base..p.base + |p.types|][i] == types[p.base + i];
    }
  }

  // ---- Moving to another instance.

  /** The exported fields: the yield number, then all globals of the resource. */
  function StorageFields(yieldGlobal: nat, start: nat, end: nat): (r: seq<nat>)
    requires start <= end
    ensures |r| == 1 + end - start && r[0] == yieldGlobal && forall j :: 0 < j < |r| ==> r[j] == start + j - 1
  {
    [yieldGlobal] + seq(end - start, i requires 0 <= i < end - start => start + i)
  }

  predicate IsField(yieldGlobal: nat, start: nat, end: nat, x: nat) {
    x == yieldGlobal || start <= x < end
  }

  lemma FieldsAre(yieldGlobal: nat, start: nat, end: nat, n: nat)
    requires yieldGlobal < start <= end <= n
    ensures DistinctFields(StorageFields(yieldGlobal, start, end), n)
    ensures forall x: nat :: x in StorageFields(yieldGlobal, start, end) <==> IsField(yieldGlobal, start, end, x)
  {
    var r := StorageFields(yieldGlobal, start, end);
    forall x: nat
      ensures x in r <==> IsField(yieldGlobal, start, end, x)
    {
      if start <= x < end {
        assert r[x - start + 1] == x;
      }
    }
  }

  /** get-storage on one instance, set-storage on another: the fields move over, the
      context goes to its own global, and nothing else changes. */
  lemma StorageMoves(types: seq<ValType>, context: Option<nat>, fields: seq<nat>, from: seq<Slot>, to: seq<Slot>, ctx: Slot)
    returns (got: State, moved: State)
    requires DistinctFields(fields, |types|) && ContextApart(context, fields, types) && OfType(ctx, V32)
    requires OfTypes(from, types) && OfTypes(to, types)
    ensures Exec(GetStorageCode(fields), State([], [], from, [])) == Some(got) && |got.stack| == |fields|
    ensures Exec(SetStorageExport(context, fields), State([], SetArgs(context, ctx, got.stack), to, [])) == Some(moved)
    ensures OfTypes(moved.globals, types)
    ensures forall x: nat :: x < |types| ==>
              moved.globals[x] == if x in fields then from[x] else if context == Some(x) then ctx else to[x]
  {
    hide Exec, GetStorageCode, SetStorageExport, OfType, OfTypes, Gathered, DistinctFields, ContextApart;
    FieldsInside(types, fields, from);
    GetStorageRuns(fields, State([], [], from, []));
    var values := Gathered(from, fields);
    assert [] + values == values;
    got := State(values, [], from, []);
    ValuesTyped(types, fields, from, values);
    moved := SetExportRuns(context, ctx, fields, values, types, to);
    FieldsInside(types, fields, moved.globals);
    FieldsInside(types, fields, to);
    FieldsMoved(types, fields, from, values, moved.globals);
  }

  lemma FieldsInside(types: seq<ValType>, fields: seq<nat>, from: seq<Slot>)
    requires DistinctFields(fields, |types|) && OfTypes(from, types)
    ensures |from| == |types| && forall k :: 0 <= k < |fields| ==> fields[k] < |from|
  {
  }

  lemma ValuesTyped(types: seq<ValType>, fields: seq<nat>, from: seq<Slot>, values: seq<Slot>)
    requires DistinctFields(fields, |types|) && OfTypes(from, types)
    requires forall k :: 0 <= k < |fields| ==> fields[k] < |from|
    requires values == Gathered(from, fields)
    ensures TypedValues(fields, values, types)
  {
    hide OfType;
  }

  lemma FieldsMoved(types: seq<ValType>, fields: seq<nat>, from: seq<Slot>, values: seq<Slot>, globals: seq<Slot>)
    requires |from| == |types| == |globals| && forall k :: 0 <= k < |fields| ==> fields[k] < |from|
    requires values == Gathered(from, fields)
    requires forall k :: 0 <= k < |fields| ==> globals[fields[k]] == values[k]
    ensures forall x: nat :: x < |types| && x in fields ==> globals[x] == from[x]
  {
    forall x: nat | x < |types| && x in fields
      ensures globals[x] == from[x]
    {
      var j :| 0 <= j < |fields| && fields[j] == x;
      assert values[j] == from[fields[j]];
    }
  }

  /** A resource suspended at a yield, read with get-storage and written with
      set-storage into any other instance, is suspended there at the same yield
      with the same locals; the context goes to its global, and the other instance's
      globals outside these stay. */
  lemma TransferKeepsSuspended(types: seq<ValType>, yieldGlobal: nat, context: Option<nat>, points: seq<Spill>, k: nat,
                               start: nat, end: nat, fields: seq<nat>, from: seq<Slot>, to: seq<Slot>, locals: seq<Slot>,
                               ctx: Slot)
    returns (got: State, moved: State)
    requires SpillsApart(types, yieldGlobal, points) && k < |points| && yieldGlobal < start <= end <= |types|
    requires context.Some? ==> yieldGlobal < context.value < start && types[context.value] == V32
    requires start <= points[k].base && points[k].base + |points[k].types| <= end && OfType(ctx, V32)
    requires OfTypes(from, types) && OfTypes(to, types) && SuspendedAt(from, yieldGlobal, k, points[k], locals)
    requires fields == StorageFields(yieldGlobal, start, end)
    ensures Exec(GetStorageCode(fields), State([], [], from, [])) == Some(got) && |got.stack| == |fields|
    ensures Exec(SetStorageExport(context, fields), State([], SetArgs(context, ctx, got.stack), to, [])) == Some(moved)
    ensures SuspendedAt(moved.globals, yieldGlobal, k, points[k], locals) && OfTypes(moved.globals, types)
    ensures forall x: nat :: x < |types| && !IsField(yieldGlobal, start, end, x) ==>
              moved.globals[x] == if context == Some(x) then ctx else to[x]
  {
    hide Exec, GetStorageCode, SetStorageExport, SpillsApart, StorageFields;
    FieldsAre(yieldGlobal, start, end, |types|);
    got, moved := StorageMoves(types, context, fields, from, to, ctx);
    var p := points[k];
    forall x | p.base <= x < p.base + |p.types|
      ensures moved.globals[x] == from[x]
    {
      assert IsField(yieldGlobal, start, end, x);
    }
    assert IsField(yieldGlobal, start, end, yieldGlobal);
    assert moved.globals[p.base..p.base + |p.types|] == from[p.base..p.base + |p.types|];
  }
}

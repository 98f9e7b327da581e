/** Whole `match` and `let` statements, from the value on the stack to the arm or
    the variables (`visit_match_drop`, the `let` case of `visit_block`, `lib.rs`). */
module VisitMatch {
  import opened Options
  import opened StarTypes
  import opened DecisionTree
  import opened TreeCompile
  import opened FirstMatch
  import opened Patterns
  import opened Positions
  import opened Wasm
  import opened Flatten
  import opened EnumEncoding
  import opened Columns
  import opened Ir
  import opened FuncRun
  import opened MatchSpec
  import opened MatchLeaf
  import opened Emission
  import opened MatchEmit
  import opened TreeEmit
  import opened CompiledFits

  // ---- The scrutinee: from the stack into locals.

  /** The value is on the stack, and all locals have their declared types. */
  ghost predicate Arrives(types: seq<ValType>, t: Type, v: Value, below: seq<Slot>, st: State) {
    HasType(v, t) && TypedLocals(st.locals, types) && st.stack == below + FlatV(v, t)
  }

  method StoreScrutinee(func: StFunction, bb: nat, t: Type) returns (base: nat)
    requires func.Valid() && IsOpen(func.cfg.blocks, bb)
    modifies func, func.cfg
    ensures func.Valid() && base == old(|func.Types()|) && func.Types() == old(func.Types()) + CoreTypes(t)
    ensures Wrote(old(func.cfg.blocks), func.cfg.blocks, bb, SpillCode(base, |CoreTypes(t)|))
  {
    var scrutTypes := StarToCoreTypes([], t);
    assert scrutTypes == CoreTypes(t);
    base := func.AddLocals(scrutTypes);
    var code := Spill(base, |scrutTypes|);
    WriteCode(func, bb, code);
  }

  /** Store n slots from the stack, the last one first. */
  method Spill(base: nat, n: nat) returns (code: seq<Instr>)
    ensures code == SpillCode(base, n)
  {
    code := [];
    var i := n;
    while i > 0
      invariant 0 <= i <= n
      invariant code + SpillCode(base, i) == SpillCode(base, n)
    {
      SpillStep(base, i);
      i := i - 1;
      code := code + [LocalSet(base + i)];
    }
  }

  /** After it, the value is laid out in one column. */
  lemma Stored(types0: seq<ValType>, types: seq<ValType>, t: Type, v: Value, below: seq<Slot>, st: State)
    returns (mid: State)
    requires Arrives(types, t, v, below, st) && types0 + CoreTypes(t) <= types
    ensures Exec(SpillCode(|types0|, |CoreTypes(t)|), st) == Some(mid)
    ensures Premises(types, [Col(|types0|, t)], [v], mid)
    ensures mid.stack == below && mid.events == st.events && mid.globals == st.globals && |mid.locals| == |st.locals|
    ensures forall x :: 0 <= x < |types0| && x < |st.locals| ==> mid.locals[x] == st.locals[x]
  {
    FlatTyped(v, t);
    mid := SlotsStored(types0, types, CoreTypes(t), FlatV(v, t), below, st);
    OneLaid(Col(|types0|, t), v, mid.locals);
  }

  lemma SlotsStored(types0: seq<ValType>, types: seq<ValType>, ts: seq<ValType>, ss: seq<Slot>, below: seq<Slot>, st: State)
    returns (mid: State)
    requires TypedLocals(st.locals, types) && OfTypes(ss, ts) && types0 + ts <= types && st.stack == below + ss
    ensures Exec(SpillCode(|types0|, |ts|), st) == Some(mid)
    ensures TypedLocals(mid.locals, types) && Holds(mid.locals, |types0|, ss)
    ensures mid.stack == below && mid.events == st.events && mid.globals == st.globals && |mid.locals| == |st.locals|
    ensures forall x :: 0 <= x < |types0| && x < |st.locals| ==> mid.locals[x] == st.locals[x]
  {
    var base := |types0|;
    PrefixSlice(types0, ts, types);
    WrittenTyped(st.locals, types, base, ss, ts);
    hide Settable, TypedLocals;
    SpillRuns(base, below, ss, ts, st);
    mid := st.(stack := below, locals := Written(st.locals, base, ss));
    HoldsWritten(st.locals, base, ss);
  }

  lemma OneLaid(c: Col, v: Value, locals: seq<Slot>)
    requires HasType(v, c.ty) && Holds(locals, c.local, FlatV(v, c.ty))
    ensures HaveTypes([v], ColTypes([c])) && Laid([c], [v], locals)
  {
    hide HasType, FlatV, Holds;
  }

  // ---- Running to the end.

  /** What holds of the runs from instruction p of block bb, given the code that
      stores the scrutinee and then decides. */
  lemma RunsAsTree(types0: seq<ValType>, types: seq<ValType>, blocks: seq<BasicBlock>, bb: nat, p: nat, q: nat, t: Type,
                   tree: Tree, last: nat, mode: Mode, v: Value, below: seq<Slot>, st: State) returns (mid: State)
    requires types0 + CoreTypes(t) <= types && bb < |blocks| && p <= q <= |blocks[bb].instructions|
    requires blocks[bb].instructions[p..q] == SpillCode(|types0|, |CoreTypes(t)|)
    requires Decides(types, blocks, bb, q, [Col(|types0|, t)], tree, last, mode, |types0|)
    requires Arrives(types, t, v, below, st)
    ensures HaveTypes([v], [t])
    ensures mid.stack == below && mid.events == st.events && mid.globals == st.globals && |mid.locals| == |st.locals|
    ensures forall x :: 0 <= x < |types0| && x < |st.locals| ==> mid.locals[x] == st.locals[x]
    ensures EndsAs(RunFrom(blocks, bb, p, st, last), mid, Walk(tree, [v], [t]), mode, |types0|)
  {
    mid := Stored(types0, types, t, v, below, st);
    hide EndsAs, Walk, TypedLocals, Laid, Decides, Exec, FlatV, HasType;
    RunSplit(blocks, bb, p, q, st, mid, last);
    assert ColTypes([Col(|types0|, t)]) == [t];
    MatchCode.DecidesAt(types, blocks, bb, q, [Col(|types0|, t)], tree, last, mode, |types0|, [v], mid);
  }

  // ---- Match.

  /** The variable's locals hold the slots of what the pattern binds it to. */
  ghost predicate VarHolds(p: Source, t: Type, v: Value, x: string, locals: seq<Slot>, base: nat) {
    exists w, tx :: SourceBinds(p, t, v, x, w, tx) && HasType(w, tx) && Holds(locals, base, FlatV(w, tx))
  }

  /** The arm is entered with every variable that is not lost, in locals that hold the
      slots of what it is bound to. */
  ghost predicate ArmEntered(arms: seq<Source>, k: nat, t: Type, v: Value, st: State, st': State)
    requires ArmsTyped(arms, t) && k < |arms|
  {
    exists env :: st'.events == st.events + [Entered(k, env)]
      && VarsKept(arms, t, v, k, env.Keys)
      && forall x :: x in env ==> VarHolds(arms[k], t, v, x, st'.locals, env[x])
  }

  /** The value is gone from the stack, globals and earlier locals are kept. */
  ghost predicate Tidy(st: State, st': State, below: seq<Slot>, n: nat) {
    && st'.stack == below && st'.globals == st.globals && |st'.locals| == |st.locals|
    && forall x :: 0 <= x < n && x < |st.locals| ==> st'.locals[x] == st.locals[x]
  }

  ghost predicate MatchEnds(r: Result, arms: seq<Source>, t: Type, v: Value, below: seq<Slot>, st: State, n: nat)
    requires ArmsTyped(arms, t)
  {
    match FirstArm(arms, t, v)
    case None => r.Trapped? && r.st.events == st.events
    case Some(k) => r.Done? && Tidy(st, r.st, below, n) && ArmEntered(arms, k, t, v, st, r.st)
  }

  predicate MatchFits(arms: seq<Source>, t: Type) {
    ArmsTyped(arms, t) && Sized(t) && forall k :: 0 <= k < |arms| ==> SourceFits(arms[k], t, map[])
  }

  lemma MatchOutcome(arms: seq<Source>, t: Type, v: Value, below: seq<Slot>, st: State, mid: State, r: Result, n: nat)
    requires MatchFits(arms, t) && HasType(v, t) && HaveTypes([v], [t]) && MatrixTyped(ArmRows(arms, t), [t])
    requires mid.stack == below && mid.events == st.events && mid.globals == st.globals && |mid.locals| == |st.locals|
    requires forall x :: 0 <= x < n && x < |st.locals| ==> mid.locals[x] == st.locals[x]
    requires EndsAs(r, mid, Walk(Compile(ArmRows(arms, t), [t]), [v], [t]), InMatch, n)
    ensures MatchEnds(r, arms, t, v, below, st, n)
  {
    MatchIsFirstArm(arms, t, v);
    var o := Walk(Compile(ArmRows(arms, t), [t]), [v], [t]);
    hide SourceBinds, SourceTyped, SourceFits, Walk, Compile, FlatV, HasType, Holds, MatrixTyped;
    var first := FirstArm(arms, t, v);
    if first.Some? {
      var k := first.value;
      var env :| r.st.events == mid.events + [Entered(o.action, env)] && EnvHolds(env, o.action, o.bound, r.st.locals);
      forall x | x in env
        ensures VarHolds(arms[k], t, v, x, r.st.locals, env[x])
      {
        assert BoundTo(o.bound, o.action, x, r.st.locals, env[x]);
        var b :| b in o.bound && b.arm == o.action && b.name == x && SlotsOf(b, r.st.locals, env[x]);
        assert SourceBinds(arms[k], t, v, b.name, b.value, b.ty);
      }
      EnvIsVars(env, k, o.bound, r.st.locals);
      KeptAre(arms, t, v, k, env.Keys);
      assert ArmEntered(arms, k, t, v, st, r.st);
    }
  }

  lemma EnvIsVars(env: map<string, nat>, k: nat, bound: seq<Bound>, locals: seq<Slot>)
    requires EnvHolds(env, k, bound, locals)
    ensures forall x :: x in env.Keys <==> Binder(k, x) in VarsOf(bound)
  {
    hide SlotsOf;
    forall x
      ensures x in env.Keys <==> Binder(k, x) in VarsOf(bound)
    {
      if x in env {
        assert BoundTo(bound, k, x, locals, env[x]);
      }
      if Binder(k, x) in VarsOf(bound) {
        var b :| b in bound && Binder(k, x) == Binder(b.arm, b.name);
      }
    }
  }

  /** A `match` whose scrutinee has been evaluated onto the stack. Whatever its
      value, running the function's code from here enters the first arm whose
      pattern matches, with its variables, but for those the tree has lost, bound to
      locals that hold the slots of the sub-value the pattern binds; or traps when no
      arm matches. */
  method VisitMatchDrop(func: StFunction, bb: nat, arms: seq<Source>, t: Type) returns (bbEnd: nat)
    requires func.Valid() && IsOpen(func.cfg.blocks, bb) && MatchFits(arms, t)
    modifies func, func.cfg
    ensures func.Valid() && old(func.Types()) <= func.Types()
    ensures Growing(old(func.cfg.blocks), func.cfg.blocks, bb, bbEnd, bbEnd)
    ensures forall v, below, st :: Arrives(func.Types(), t, v, below, st) ==>
              MatchEnds(RunFrom(func.cfg.blocks, bb, old(|func.cfg.blocks[bb].instructions|), st, bbEnd),
                        arms, t, v, below, st, old(|func.Types()|))
  {
    hide TreeFits, SourceFits, SourceTyped, Sized, Compile, Grown, Growing, CoreTypes, Decides, Wrote, CanEmit, MatchEnds,
         Arrives, SpillCode, MatrixTyped;
    ghost var types0, b0 := func.Types(), func.cfg.blocks;
    ArmsFit(arms, t, map[]);
    var scrutBase := StoreScrutinee(func, bb, t);
    ghost var types1, b1 := func.Types(), func.cfg.blocks;
    var tree := CompileMatch(arms, t);
    bbEnd := func.cfg.AddBlock();
    ghost var b2 := func.cfg.blocks;
    var cols := [Col(scrutBase, t)];
    AddedReady(types0, b0, b1, b2, bb, t, SpillCode(scrutBase, |CoreTypes(t)|));
    EmitDecisionTree(func, bb, tree, cols, bbEnd, InMatch);
    ghost var types, b3 := func.Types(), func.cfg.blocks;
    EndSealable(b0, b1, b2, b3, bb, SpillCode(scrutBase, |CoreTypes(t)|));
    func.cfg.Seal(bbEnd);
    ghost var b4 := func.cfg.blocks;
    WholeGrowing(b0, b1, b2, b3, b4, bb, SpillCode(scrutBase, |CoreTypes(t)|));
    DecidesStable(types, types, b3, b4, bb, |b2[bb].instructions|, cols, tree, bbEnd, InMatch, |types1|);
    DecidesNarrower(types, b4, bb, |b2[bb].instructions|, cols, tree, bbEnd, InMatch, |types0|, |types1|);
    forall v, below, st | Arrives(types, t, v, below, st)
      ensures MatchEnds(RunFrom(b4, bb, |b0[bb].instructions|, st, bbEnd), arms, t, v, below, st, |types0|)
    {
      MatchRuns(types0, types, b4, bb, |b0[bb].instructions|, |b2[bb].instructions|, arms, t, bbEnd, v, below, st);
    }
  }

  lemma MatchRuns(types0: seq<ValType>, types: seq<ValType>, blocks: seq<BasicBlock>, bb: nat, p: nat, q: nat,
                  arms: seq<Source>, t: Type, last: nat, v: Value, below: seq<Slot>, st: State)
    requires MatchFits(arms, t) && MatrixTyped(ArmRows(arms, t), [t])
    requires types0 + CoreTypes(t) <= types && bb < |blocks| && p <= q <= |blocks[bb].instructions|
    requires blocks[bb].instructions[p..q] == SpillCode(|types0|, |CoreTypes(t)|)
    requires Decides(types, blocks, bb, q, [Col(|types0|, t)], Compile(ArmRows(arms, t), [t]), last, InMatch, |types0|)
    requires Arrives(types, t, v, below, st)
    ensures MatchEnds(RunFrom(blocks, bb, p, st, last), arms, t, v, below, st, |types0|)
  {
    assert HasType(v, t);
    hide EndsAs, Walk, Decides, RunFrom, SpillCode, CoreTypes, Compile, MatchEnds, MatrixTyped, SourceTyped, SourceFits, Sized;
    var mid := RunsAsTree(types0, types, blocks, bb, p, q, t, Compile(ArmRows(arms, t), [t]), last, InMatch, v, below, st);
    MatchOutcome(arms, t, v, below, st, mid, RunFrom(blocks, bb, p, st, last), |types0|);
  }

  // ---- Blocks of one statement: b0 at its start, b1 with the scrutinee stored, b2
  // ---- with the end block added, b3 with the tree emitted, b4 with the end sealed.

  lemma AddedReady(types0: seq<ValType>, b0: seq<BasicBlock>, b1: seq<BasicBlock>, b2: seq<BasicBlock>, bb: nat, t: Type,
                   code: seq<Instr>)
    requires IsOpen(b0, bb) && Wrote(b0, b1, bb, code) && b2 == b1 + [NEW_BLOCK]
    ensures CanEmit(types0 + CoreTypes(t), b2, bb, [Col(|types0|, t)], |b1|, InMatch)
    ensures ColTypes([Col(|types0|, t)]) == [t] && Decl(InMatch) == map[]
  {
  }

  lemma EndSealable(b0: seq<BasicBlock>, b1: seq<BasicBlock>, b2: seq<BasicBlock>, b3: seq<BasicBlock>, bb: nat,
                    code: seq<Instr>)
    requires IsOpen(b0, bb) && Wrote(b0, b1, bb, code) && b2 == b1 + [NEW_BLOCK] && Grown(b2, b3, bb, |b1|)
    ensures |b1| < |b3| && !b3[|b1|].sealed
  {
    assert SameBlock(b3[|b1|], b2[|b1|]);
  }

  lemma WholeGrowing(b0: seq<BasicBlock>, b1: seq<BasicBlock>, b2: seq<BasicBlock>, b3: seq<BasicBlock>,
                     b4: seq<BasicBlock>, bb: nat, code: seq<Instr>)
    requires IsOpen(b0, bb) && Wrote(b0, b1, bb, code) && b2 == b1 + [NEW_BLOCK] && Grown(b2, b3, bb, |b1|)
    requires |b1| < |b3| && b4 == b3[|b1| := b3[|b1|].(sealed := true)]
    ensures Growing(b0, b4, bb, |b1|, |b1|) && Keeps(b3, b4) && |b1| == |b0|
    ensures |b0[bb].instructions| <= |b2[bb].instructions| <= |b4[bb].instructions|
    ensures b4[bb].instructions[|b0[bb].instructions|..|b2[bb].instructions|] == code
  {
    forall b | 0 <= b < |b0| && b != bb
      ensures SameBlock(b4[b], b0[b])
    {
      assert SameBlock(b3[b], b2[b]) && SameBlock(b1[b], b0[b]);
    }
    assert SameBlock(b3[|b1|], b2[|b1|]);
    assert b2[bb].instructions == b0[bb].instructions + code;
    assert b2[bb].instructions <= b4[bb].instructions;
    assert b4[bb].instructions[..|b2[bb].instructions|] == b2[bb].instructions;
    assert b4[bb].instructions[|b0[bb].instructions|..|b2[bb].instructions|]
        == b2[bb].instructions[|b0[bb].instructions|..];
  }
}

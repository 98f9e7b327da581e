/** Emitting a whole decision tree as a branch cascade: for all values laid out in
    the columns' locals, the code does what walking the tree does. */
module TreeEmit {
  import opened ControlFlow
  import opened StarTypes
  import opened DecisionTree
  import opened Wasm
  import opened Flatten
  import opened EnumEncoding
  import opened Columns
  import opened Ir
  import opened FuncRun
  import opened MatchSpec
  import opened MatchCode
  import opened EnumBranch
  import opened MatchLeaf
  import opened Emission
  import opened MatchEmit

  // ---- What emission needs and gives.

  ghost predicate ModeOk(mode: Mode, cols: seq<Col>, types: seq<ValType>) {
    mode.InLet? ==> DestsOk(mode.dests, cols, types)
  }

  /** Block bb is open, the target block is not sealed yet, and all columns are in
      declared locals. */
  ghost predicate CanEmit(types: seq<ValType>, blocks: seq<BasicBlock>, bb: nat, cols: seq<Col>, last: nat, mode: Mode) {
    && IsOpen(blocks, bb) && last < |blocks| && last != bb && !blocks[last].sealed
    && ColsIn(cols, |types|) && ModeOk(mode, cols, types)
  }

  ghost predicate Emitted(types0: seq<ValType>, types1: seq<ValType>, b0: seq<BasicBlock>, b1: seq<BasicBlock>, bb: nat,
                          cols: seq<Col>, tree: Tree, last: nat, mode: Mode)
  {
    && types0 <= types1 && Grown(b0, b1, bb, last)
    && Decides(types1, b1, bb, |b0[bb].instructions|, cols, tree, last, mode, |types0|)
  }

  ghost predicate CaseEmitted(types0: seq<ValType>, types1: seq<ValType>, b0: seq<BasicBlock>, b1: seq<BasicBlock>,
                              cur: nat, next: nat, t: nat, cols: seq<Col>, column: nat, c: Case, last: nat, mode: Mode,
                              n: nat)
  {
    && types0 <= types1 && next >= |b0| && column < |cols| && cur < |b0|
    && Growing(b0, b1, cur, next, last) && b1[next].instructions == []
    && Link(b1, cur, |b0[cur].instructions|, TestCode(c.ctor, cols[column].ty, cols[column].local), t, next, last)
    && Branches(types1, b1, t, cols, column, c, last, mode, n)
  }

  // ---- Columns stay inside the locals, apart from the variables.

  lemma {:induction false} FieldColsFrom(base: nat, ts: seq<Type>)
    ensures forall i :: 0 <= i < |ts| ==> FieldCols(base, ts)[i].local >= base
  {
    if ts != [] {
      FieldColsFrom(base, ts[..|ts| - 1]);
    }
  }

  /** New columns in new locals, or inside the old column. */
  lemma SpliceModeOk(mode: Mode, cols: seq<Col>, col: nat, mid: seq<Col>, types: seq<ValType>, types': seq<ValType>)
    requires col < |cols| && ModeOk(mode, cols, types) && types <= types'
    requires forall d, i :: 0 <= i < |mid| && (Apart(d, cols[col]) && DestIn(d, types)) ==> Apart(d, mid[i])
    ensures ModeOk(mode, Splice(cols, col, mid), types')
  {
    hide CoreTypes, Apart;
    if mode.InLet? {
      var cols' := Splice(cols, col, mid);
      forall x, i | x in mode.dests && 0 <= i < |cols'|
        ensures Apart(mode.dests[x], cols'[i])
      {
        SpliceFrom(cols, col, mid, i);
        assert Apart(mode.dests[x], cols[col]) && DestIn(mode.dests[x], types);
      }
      forall x | x in mode.dests
        ensures DestIn(mode.dests[x], types')
      {
        var d := mode.dests[x];
        assert DestIn(d, types);
        assert types'[d.local..d.local + |CoreTypes(d.ty)|] == types[d.local..d.local + |CoreTypes(d.ty)|];
      }
    }
  }

  lemma InsideReady(mode: Mode, cols: seq<Col>, col: nat, fts: seq<Type>, types: seq<ValType>)
    requires col < |cols| && ModeOk(mode, cols, types) && ColsIn(cols, |types|)
    requires |CoreTypesAll(fts)| <= |CoreTypes(cols[col].ty)|
    ensures ModeOk(mode, Splice(cols, col, FieldCols(cols[col].local, fts)), types)
    ensures ColsIn(Splice(cols, col, FieldCols(cols[col].local, fts)), |types|)
    ensures ColTypes(Splice(cols, col, FieldCols(cols[col].local, fts))) == Splice(ColTypes(cols), col, fts)
  {
    hide FieldCols, CoreTypes, CoreTypesAll, Splice, ModeOk;
    var base := cols[col].local;
    FieldColTypes(base, fts);
    SpliceColTypes(cols, col, FieldCols(base, fts));
    FieldColsIn(base, fts);
    FieldColsFrom(base, fts);
    SpliceModeOk(mode, cols, col, FieldCols(base, fts), types, types);
    SpliceColsIn(cols, col, FieldCols(base, fts), |types|, |types|);
  }

  lemma FreshReady(mode: Mode, cols: seq<Col>, col: nat, fts: seq<Type>, types: seq<ValType>)
    requires col < |cols| && ModeOk(mode, cols, types) && ColsIn(cols, |types|)
    ensures ModeOk(mode, Splice(cols, col, FieldCols(|types|, fts)), types + CoreTypesAll(fts))
    ensures ColsIn(Splice(cols, col, FieldCols(|types|, fts)), |types + CoreTypesAll(fts)|)
    ensures ColTypes(Splice(cols, col, FieldCols(|types|, fts))) == Splice(ColTypes(cols), col, fts)
  {
    var base := |types|;
    hide FieldCols, CoreTypes, CoreTypesAll, Splice, ModeOk;
    FieldColTypes(base, fts);
    SpliceColTypes(cols, col, FieldCols(base, fts));
    FieldColsIn(base, fts);
    FieldColsFrom(base, fts);
    SpliceModeOk(mode, cols, col, FieldCols(base, fts), types, types + CoreTypesAll(fts));
    SpliceColsIn(cols, col, FieldCols(base, fts), base, |types + CoreTypesAll(fts)|);
  }

  lemma GoneReady(mode: Mode, cols: seq<Col>, col: nat, types: seq<ValType>)
    requires col < |cols| && ModeOk(mode, cols, types) && ColsIn(cols, |types|)
    ensures ModeOk(mode, Splice(cols, col, []), types) && ColsIn(Splice(cols, col, []), |types|)
    ensures ColTypes(Splice(cols, col, [])) == Splice(ColTypes(cols), col, [])
  {
    SpliceColTypes(cols, col, []);
    SpliceModeOk(mode, cols, col, [], types, types);
    SpliceColsIn(cols, col, [], |types|, |types|);
  }

  // ---- Leaves.

  /** The copies of all variables of a leaf. */
  method CopyBindings(bindings: seq<LeafBinding>, cols: seq<Col>, dests: map<string, Col>) returns (code: seq<Instr>)
    requires InCols(bindings, cols)
    ensures code == CopyVars(bindings, cols, dests, |bindings|)
  {
    code := [];
    for k := 0 to |bindings|
      invariant code == CopyVars(bindings, cols, dests, k)
    {
      var one := CopyVariable(bindings[k], cols, dests);
      hide CopyOneVar;
      code := code + one;
    }
  }

  method CopyVariable(b: LeafBinding, cols: seq<Col>, dests: map<string, Col>) returns (code: seq<Instr>)
    requires b.column < |cols|
    ensures code == CopyOneVar(b, cols, dests)
  {
    code := [];
    if b.name in dests {
      var source, dest := cols[b.column].local, dests[b.name].local;
      var coreTypes := StarToCoreTypes([], cols[b.column].ty);
      assert coreTypes == CoreTypes(cols[b.column].ty);
      hide CoreTypes;
      for i := 0 to |coreTypes|
        invariant code == CopyCode(source, dest, coreTypes, coreTypes, i)
      {
        code := code + [LocalGet(source + i)] + [LocalSet(dest + i)];
        PlainCopy(source, dest, coreTypes, i);
      }
    }
  }

  lemma PlainCopy(source: nat, dest: nat, ts: seq<ValType>, i: nat)
    requires i < |ts|
    ensures CopyCode(source, dest, ts, ts, i + 1)
         == CopyCode(source, dest, ts, ts, i) + [LocalGet(source + i)] + [LocalSet(dest + i)]
  {
    assert OneCopy(source + i, dest + i, ts[i], ts[i]) == [LocalGet(source + i)] + [LocalSet(dest + i)];
  }

  method ArmLocals(bindings: seq<LeafBinding>, cols: seq<Col>, action: nat) returns (env: map<string, nat>)
    requires InCols(bindings, cols)
    ensures env == EnvUpTo(bindings, cols, action, |bindings|)
  {
    env := map[];
    for k := 0 to |bindings|
      invariant env == EnvUpTo(bindings, cols, action, k)
    {
      var b := bindings[k];
      if b.action == action {
        env := env[b.name := cols[b.column].local];
      }
    }
  }

  lemma LeafFits(action: nat, bindings: seq<LeafBinding>, cols: seq<Col>, mode: Mode)
    requires TreeFits(Leaf(action, bindings), ColTypes(cols), Decl(mode))
    ensures InCols(bindings, cols)
    ensures mode.InLet? ==> forall k :: 0 <= k < |bindings| && bindings[k].name in mode.dests ==>
              mode.dests[bindings[k].name].ty == cols[bindings[k].column].ty
  {
    forall k | 0 <= k < |bindings|
      ensures bindings[k].column < |cols|
    {
      assert bindings[k] in bindings;
    }
    if mode.InLet? {
      forall k | 0 <= k < |bindings| && bindings[k].name in mode.dests
        ensures mode.dests[bindings[k].name].ty == cols[bindings[k].column].ty
      {
        assert bindings[k] in bindings && bindings[k].name in Decl(mode);
      }
    }
  }

  method EmitLeaf(func: StFunction, bb: nat, action: nat, bindings: seq<LeafBinding>, cols: seq<Col>, last: nat, mode: Mode)
    requires func.Valid() && CanEmit(func.Types(), func.cfg.blocks, bb, cols, last, mode)
    requires TreeFits(Leaf(action, bindings), ColTypes(cols), Decl(mode))
    modifies func.cfg
    ensures func.Valid()
    ensures Emitted(func.Types(), func.Types(), old(func.cfg.blocks), func.cfg.blocks, bb, cols, Leaf(action, bindings), last, mode)
  {
    LeafFits(action, bindings, cols, mode);
    ghost var types, b0 := func.Types(), func.cfg.blocks;
    hide TreeFits, ColsIn, CopyVars, EnvUpTo, Grown, Decides;
    match mode {
      case InMatch =>
        var env := ArmLocals(bindings, cols, action);
        Finish(func, bb, [ArmBody(action, env)], Next(last), last);
        FilledGrown(b0, func.cfg.blocks, bb, [ArmBody(action, env)], Next(last), last);
        ArmDecides(types, func.cfg.blocks, bb, |b0[bb].instructions|, cols, action, bindings, last, |types|);
      case InLet(dests, _) =>
        var code := CopyBindings(bindings, cols, dests);
        Finish(func, bb, code, Next(last), last);
        FilledGrown(b0, func.cfg.blocks, bb, code, Next(last), last);
        LetDecides(types, func.cfg.blocks, bb, |b0[bb].instructions|, cols, action, bindings, last, mode, |types|);
    }
  }

  method EmitFail(func: StFunction, bb: nat, cols: seq<Col>, last: nat, mode: Mode)
    requires func.Valid() && CanEmit(func.Types(), func.cfg.blocks, bb, cols, last, mode)
    modifies func.cfg
    ensures func.Valid()
    ensures Emitted(func.Types(), func.Types(), old(func.cfg.blocks), func.cfg.blocks, bb, cols, Fail, last, mode)
  {
    ghost var types, b0 := func.Types(), func.cfg.blocks;
    var code := if mode.InLet? && mode.hasElse then [ElseBody] else [];
    Finish(func, bb, code, Unreachable, last);
    FilledGrown(b0, func.cfg.blocks, bb, code, Unreachable, last);
    FailDecides(types, func.cfg.blocks, bb, |b0[bb].instructions|, cols, last, mode, |types|);
  }

  // ---- Cases.

  lemma WroteNothing(b: seq<BasicBlock>, bb: nat)
    requires bb < |b|
    ensures Wrote(b, b, bb, [])
  {
  }

  /** After the fork, and the code in its branch, the branch can be emitted into. */
  lemma BranchReady(types: seq<ValType>, types': seq<ValType>, b0: seq<BasicBlock>, b1: seq<BasicBlock>, b2: seq<BasicBlock>,
                    cur: nat, test: seq<Instr>, code: seq<Instr>, cols: seq<Col>, cols': seq<Col>, last: nat, mode: Mode)
    requires CanEmit(types, b0, cur, cols, last, mode)
    requires Forked(b0, b1, cur, test) && Wrote(b1, b2, |b0|, code)
    requires ColsIn(cols', |types'|) && ModeOk(mode, cols', types')
    ensures CanEmit(types', b2, |b0|, cols', last, mode) && |b2[|b0|].instructions| == |code|
  {
    hide ColsIn, ModeOk;
    assert SameBlock(b1[last], b0[last]) && SameBlock(b2[last], b1[last]);
  }

  /** The whole case, once its subtree has been emitted. */
  lemma ForkLinks(b0: seq<BasicBlock>, b1: seq<BasicBlock>, b2: seq<BasicBlock>, b3: seq<BasicBlock>, cur: nat,
                  test: seq<Instr>, code: seq<Instr>, last: nat)
    requires IsOpen(b0, cur) && last < |b0|
    requires Forked(b0, b1, cur, test) && Wrote(b1, b2, |b0|, code) && Grown(b2, b3, |b0|, last)
    ensures Growing(b0, b3, cur, |b0| + 1, last) && b3[|b0| + 1].instructions == []
    ensures Link(b3, cur, |b0[cur].instructions|, test, |b0|, |b0| + 1, last)
    ensures |b0| < |b3| && code <= b3[|b0|].instructions
  {
    ForkGrows(b0, b1, b2, b3, cur, test, code, last);
  }

  /** What a case's constructor must be for the column, and its subtree. */
  ghost predicate CaseFits(c: Case, cols: seq<Col>, column: nat, mode: Mode) {
    && column < |cols| && Sized(cols[column].ty) && CtorOk(c.ctor, cols[column].ty)
    && TreeFits(c.tree, Splice(ColTypes(cols), column, FieldTypes(c.ctor, cols[column].ty)), Decl(mode))
  }

  lemma CaseFitsAt(tree: Tree, cols: seq<Col>, mode: Mode, k: nat)
    requires tree.Switch? && TreeFits(tree, ColTypes(cols), Decl(mode)) && k < |tree.cases|
    ensures CaseFits(tree.cases[k], cols, tree.column, mode)
  {
  }

  lemma SwitchFits(tree: Tree, cols: seq<Col>, mode: Mode)
    requires tree.Switch? && TreeFits(tree, ColTypes(cols), Decl(mode))
    ensures tree.column < |cols| && Sized(cols[tree.column].ty)
    ensures forall k :: 0 <= k < |tree.cases| ==> CtorOk(tree.cases[k].ctor, cols[tree.column].ty)
    ensures cols[tree.column].ty.Tuple? || cols[tree.column].ty.Record? || cols[tree.column].ty.Unit? ==> tree.cases != []
    ensures tree.default.Some? ==>
              TreeFits(tree.default.value, Splice(ColTypes(cols), tree.column, []), Decl(mode))
  {
  }

  /** One case of a bool or int switch. */
  method EmitSimpleCase(func: StFunction, cur: nat, c: Case, cols: seq<Col>, column: nat, last: nat, mode: Mode, ghost n: nat)
    returns (next: nat, ghost t: nat)
    requires func.Valid() && CanEmit(func.Types(), func.cfg.blocks, cur, cols, last, mode) && n <= |func.Types()|
    requires CaseFits(c, cols, column, mode) && (cols[column].ty.Bool? || cols[column].ty.Int?)
    modifies func, func.cfg
    ensures func.Valid()
    ensures CaseEmitted(old(func.Types()), func.Types(), old(func.cfg.blocks), func.cfg.blocks, cur, next, t, cols, column, c,
                        last, mode, n)
    decreases c.tree, 4
  {
    hide TreeFits, Grown, Growing, Forked, Wrote, Link, Decides, Branches, ModeOk, ColsIn, Splice, Sized, TestCode;
    ghost var types0, b0 := func.Types(), func.cfg.blocks;
    var test := TestCode(c.ctor, cols[column].ty, cols[column].local);
    var bbTrue, bbFalse := Fork(func, cur, test);
    ghost var b1 := func.cfg.blocks;
    var newCols := cols[..column] + cols[column + 1..];
    NewCols(cols, column);
    GoneReady(mode, cols, column, types0);
    WroteNothing(b1, |b0|);
    BranchReady(types0, types0, b0, b1, b1, cur, test, [], cols, newCols, last, mode);
    NoFields(c, cols, column);
    EmitDecisionTree(func, bbTrue, c.tree, newCols, last, mode);
    ForkLinks(b0, b1, b1, func.cfg.blocks, cur, test, [], last);
    DecidesNarrower(func.Types(), func.cfg.blocks, |b0|, 0, newCols, c.tree, last, mode, n, |types0|);
    SimpleBranch(func.Types(), func.cfg.blocks, |b0|, cols, column, c, last, mode, n);
    next, t := bbFalse, |b0|;
  }

  lemma NewCols(cols: seq<Col>, column: nat)
    requires column < |cols|
    ensures cols[..column] + cols[column + 1..] == Splice(cols, column, [])
  {
  }

  lemma NoFields(c: Case, cols: seq<Col>, column: nat)
    requires column < |cols| && CtorOk(c.ctor, cols[column].ty) && (cols[column].ty.Bool? || cols[column].ty.Int?)
    ensures FieldTypes(c.ctor, cols[column].ty) == []
  {
  }

  /** What is known of an enum case before its code is made. */
  lemma EnumCaseFacts(c: Case, cols: seq<Col>, column: nat)
    requires column < |cols| && CtorOk(c.ctor, cols[column].ty) && cols[column].ty.Enum?
    ensures c.ctor.EnumVariant? && c.ctor.index < |cols[column].ty.variants|
    ensures CoreTypes(cols[column].ty) != []
    ensures CoreTypes(cols[column].ty)[1..] == JoinVariants(cols[column].ty.variants)
    ensures CasePayload(cols[column].ty.variants[c.ctor.index])
         == CoreTypesAll(PayloadTypes(cols[column].ty.variants[c.ctor.index]))
    ensures Bounds(CoreTypes(cols[column].ty)[1..], CasePayload(cols[column].ty.variants[c.ctor.index]))
    ensures FieldTypes(c.ctor, cols[column].ty) == PayloadTypes(cols[column].ty.variants[c.ctor.index])
  {
    CasePayloadIs(cols[column].ty.variants[c.ctor.index]);
    JoinBounds(cols[column].ty.variants, c.ctor.index);
  }

  /** One case of an enum switch. */
  method EmitEnumCase(func: StFunction, cur: nat, c: Case, cols: seq<Col>, column: nat, enumCore: seq<ValType>, last: nat,
                      mode: Mode, ghost n: nat)
    returns (next: nat, ghost t: nat)
    requires func.Valid() && CanEmit(func.Types(), func.cfg.blocks, cur, cols, last, mode) && n <= |func.Types()|
    requires CaseFits(c, cols, column, mode) && cols[column].ty.Enum? && enumCore == CoreTypes(cols[column].ty)
    modifies func, func.cfg
    ensures func.Valid()
    ensures CaseEmitted(old(func.Types()), func.Types(), old(func.cfg.blocks), func.cfg.blocks, cur, next, t, cols, column, c,
                        last, mode, n)
    decreases c.tree, 4
  {
    hide TreeFits, Grown, Growing, Forked, Wrote, Link, Decides, Branches, ModeOk, ColsIn, Splice, Sized, TestCode, Bounds,
         CoreTypes, CoreTypesAll, FieldCols, DemoteCode, CasePayload, JoinVariants, PayloadTypes;
    ghost var types0, b0 := func.Types(), func.cfg.blocks;
    EnumCaseFacts(c, cols, column);
    var base, k := cols[column].local, c.ctor.index;
    var test := TestCode(c.ctor, cols[column].ty, base);
    var bbTrue, bbFalse := Fork(func, cur, test);
    ghost var b1 := func.cfg.blocks;
    BranchOpen(b0, b1, cur, test);
    var fieldTypes := PayloadTypes(cols[column].ty.variants[k]);
    var newCols := DemoteEnumFields(func, bbTrue, column, base, enumCore, fieldTypes, cols);
    ghost var types2, b2 := func.Types(), func.cfg.blocks;
    ghost var code := DemoteCode(base, |types0|, enumCore[1..], CoreTypesAll(fieldTypes));
    FreshReady(mode, cols, column, fieldTypes, types0);
    BranchReady(types0, types2, b0, b1, b2, cur, test, code, cols, newCols, last, mode);
    EmitDecisionTree(func, bbTrue, c.tree, newCols, last, mode);
    EnumCaseDone(types0, types2, func.Types(), b0, b1, b2, func.cfg.blocks, cur, cols, column, c, k, test, code, last, mode, n);
    next, t := bbFalse, |b0|;
  }

  lemma BranchOpen(b0: seq<BasicBlock>, b1: seq<BasicBlock>, cur: nat, test: seq<Instr>)
    requires Forked(b0, b1, cur, test)
    ensures IsOpen(b1, |b0|)
  {
  }

  lemma EnumCaseDone(types0: seq<ValType>, types2: seq<ValType>, types3: seq<ValType>, b0: seq<BasicBlock>,
                     b1: seq<BasicBlock>, b2: seq<BasicBlock>, b3: seq<BasicBlock>, cur: nat, cols: seq<Col>, column: nat,
                     c: Case, k: nat, test: seq<Instr>, code: seq<Instr>, last: nat, mode: Mode, n: nat)
    requires column < |cols| && cols[column].ty.Enum? && k < |cols[column].ty.variants| && c.ctor == EnumVariant(k)
    requires IsOpen(b0, cur) && last < |b0| && ColsIn(cols, |types0|) && n <= |types0|
    requires Forked(b0, b1, cur, test) && Wrote(b1, b2, |b0|, code)
    requires test == TestCode(c.ctor, cols[column].ty, cols[column].local)
    requires Bounds(JoinVariants(cols[column].ty.variants), CasePayload(cols[column].ty.variants[k]))
    requires code == DemoteCode(cols[column].local, |types0|, JoinVariants(cols[column].ty.variants),
                                CasePayload(cols[column].ty.variants[k]))
    requires types2 == types0 + CasePayload(cols[column].ty.variants[k]) && |b0| < |b2|
    requires Emitted(types2, types3, b2, b3, |b0|,
                     Splice(cols, column, FieldCols(|types0|, PayloadTypes(cols[column].ty.variants[k]))), c.tree, last, mode)
    requires |b2[|b0|].instructions| == |code|
    ensures CaseEmitted(types0, types3, b0, b3, cur, |b0| + 1, |b0|, cols, column, c, last, mode, n)
  {
    hide Grown, Growing, Forked, Wrote, Link, Decides, Branches, ColsIn, Splice, TestCode, FieldCols, DemoteCode, CasePayload,
         JoinVariants, PayloadTypes;
    ForkLinks(b0, b1, b2, b3, cur, test, code, last);
    assert b3[|b0|].instructions[..|code|] == code;
    DecidesNarrower(types3, b3, |b0|, |code|,
                    Splice(cols, column, FieldCols(|types0|, PayloadTypes(cols[column].ty.variants[k]))), c.tree, last, mode,
                    |types0|, |types2|);
    EnumBranches(types0, types3, b3, |b0|, cols, column, c, k, |code|, last, mode, n);
  }

  // ---- Switches.

  /** The rest of a switch, after its cases. */
  method EmitDefault(func: StFunction, cur: nat, tree: Tree, cols: seq<Col>, last: nat, mode: Mode, ghost n: nat)
    requires func.Valid() && CanEmit(func.Types(), func.cfg.blocks, cur, cols, last, mode) && n <= |func.Types()|
    requires tree.Switch? && TreeFits(tree, ColTypes(cols), Decl(mode))
    modifies func, func.cfg
    ensures func.Valid() && old(func.Types()) <= func.Types()
    ensures Grown(old(func.cfg.blocks), func.cfg.blocks, cur, last)
    ensures Tail(func.Types(), func.cfg.blocks, cur, |old(func.cfg.blocks[cur].instructions)|, cols, tree.column,
                 tree.default, last, mode, n)
    decreases tree, 1
  {
    SwitchFits(tree, cols, mode);
    hide TreeFits, Grown, Decides, ModeOk, ColsIn, Splice, Sized, Tail, CtorOk;
    ghost var types0, b0 := func.Types(), func.cfg.blocks;
    match tree.default {
      case Some(def) =>
        var newCols := cols[..tree.column] + cols[tree.column + 1..];
        NewCols(cols, tree.column);
        GoneReady(mode, cols, tree.column, types0);
        EmitDecisionTree(func, cur, def, newCols, last, mode);
        DecidesNarrower(func.Types(), func.cfg.blocks, cur, |b0[cur].instructions|, newCols, def, last, mode, n, |types0|);
        DefaultTail(func.Types(), func.cfg.blocks, cur, |b0[cur].instructions|, cols, tree.column, def, last, mode, n);
      case None =>
        Finish(func, cur, [], Unreachable, last);
        FilledGrown(b0, func.cfg.blocks, cur, [], Unreachable, last);
        NoTail(func.Types(), func.cfg.blocks, cur, |b0[cur].instructions|, cols, tree.column, last, mode, n);
    }
  }

  /** Emission can go on in the next test's block. */
  lemma StillReady(types0: seq<ValType>, types1: seq<ValType>, b0: seq<BasicBlock>, b1: seq<BasicBlock>, bb: nat, cur: nat,
                   cols: seq<Col>, last: nat, mode: Mode)
    requires CanEmit(types0, b0, bb, cols, last, mode) && types0 <= types1 && Growing(b0, b1, bb, cur, last)
    ensures CanEmit(types1, b1, cur, cols, last, mode)
  {
    assert SameBlock(b1[last], b0[last]);
    hide CoreTypes;
    if mode.InLet? {
      forall x | x in mode.dests
        ensures DestIn(mode.dests[x], types1)
      {
        var d := mode.dests[x];
        assert DestIn(d, types0);
        assert types1[d.local..d.local + |CoreTypes(d.ty)|] == types0[d.local..d.local + |CoreTypes(d.ty)|];
      }
    }
  }

  ghost predicate IsTested(t: Type) {
    t.Enum? || t.Bool? || t.Int?
  }

  /** Where a switch's emission is after k cases. */
  ghost predicate Midway(types0: seq<ValType>, types: seq<ValType>, b0: seq<BasicBlock>, blocks: seq<BasicBlock>, bb: nat,
                         cur: nat, cols: seq<Col>, tree: Tree, heads: seq<nat>, trues: seq<nat>, last: nat, mode: Mode)
    requires tree.Switch?
  {
    && types0 <= types && CanEmit(types, blocks, cur, cols, last, mode)
    && CascadeSoFar(b0, blocks, types, bb, cur, cols, tree.column, tree.cases, heads, trues, last, mode, |types0|)
  }

  lemma MidwayStart(types: seq<ValType>, b0: seq<BasicBlock>, bb: nat, cols: seq<Col>, tree: Tree, last: nat, mode: Mode)
    requires tree.Switch? && CanEmit(types, b0, bb, cols, last, mode) && tree.column < |cols|
    ensures Midway(types, types, b0, b0, bb, bb, cols, tree, [bb], [], last, mode)
  {
    CascadeStart(b0, types, bb, cols, tree.column, tree.cases, last, mode, |types|);
  }

  lemma MidwayStep(types0: seq<ValType>, types1: seq<ValType>, types2: seq<ValType>, b0: seq<BasicBlock>,
                   b1: seq<BasicBlock>, b2: seq<BasicBlock>, bb: nat, cur: nat, next: nat, t: nat, cols: seq<Col>, tree: Tree,
                   heads: seq<nat>, trues: seq<nat>, last: nat, mode: Mode)
    requires tree.Switch? && |trues| < |tree.cases|
    requires Midway(types0, types1, b0, b1, bb, cur, cols, tree, heads, trues, last, mode)
    requires CaseEmitted(types1, types2, b1, b2, cur, next, t, cols, tree.column, tree.cases[|trues|], last, mode, |types0|)
    ensures Midway(types0, types2, b0, b2, bb, next, cols, tree, heads + [next], trues + [t], last, mode)
  {
    hide CascadeSoFar, Growing, Link, Branches, CanEmit;
    StillReady(types1, types2, b1, b2, cur, next, cols, last, mode);
    CascadeExtends(b0, b1, b2, types1, types2, bb, cur, next, t, cols, tree.column, tree.cases, heads, trues, last, mode,
                   |types0|);
  }

  lemma MidwayEnd(types0: seq<ValType>, types1: seq<ValType>, types2: seq<ValType>, b0: seq<BasicBlock>, b1: seq<BasicBlock>,
                  b2: seq<BasicBlock>, bb: nat, cur: nat, cols: seq<Col>, tree: Tree, heads: seq<nat>, trues: seq<nat>,
                  last: nat, mode: Mode)
    requires tree.Switch? && |trues| == |tree.cases| && TreeFits(tree, ColTypes(cols), Decl(mode)) && bb < |b0|
    requires Midway(types0, types1, b0, b1, bb, cur, cols, tree, heads, trues, last, mode)
    requires tree.column < |cols| && IsTested(cols[tree.column].ty)
    requires types1 <= types2 && Grown(b1, b2, cur, last)
    requires Tail(types2, b2, cur, |b1[cur].instructions|, cols, tree.column, tree.default, last, mode, |types0|)
    ensures Emitted(types0, types2, b0, b2, bb, cols, tree, last, mode)
  {
    SwitchFits(tree, cols, mode);
    hide CascadeSoFar, Grown, Tail, CanEmit, CtorOk, Sized, TreeFits, Decides;
    CascadeEnds(b0, b1, b2, types1, types2, bb, cur, cols, tree.column, tree.cases, tree.default, heads, trues, last, mode,
                |types0|);
    assert tree == Switch(tree.column, tree.cases, tree.default);
  }

  method EmitSimpleSwitch(func: StFunction, bb: nat, tree: Tree, cols: seq<Col>, last: nat, mode: Mode)
    requires func.Valid() && CanEmit(func.Types(), func.cfg.blocks, bb, cols, last, mode)
    requires tree.Switch? && TreeFits(tree, ColTypes(cols), Decl(mode))
    requires tree.column < |cols| && (cols[tree.column].ty.Bool? || cols[tree.column].ty.Int?)
    modifies func, func.cfg
    ensures func.Valid()
    ensures Emitted(old(func.Types()), func.Types(), old(func.cfg.blocks), func.cfg.blocks, bb, cols, tree, last, mode)
    decreases tree, 2
  {
    hide TreeFits, Midway, CanEmit, CaseFits, CaseEmitted, Emitted, Grown, Tail;
    ghost var types0, b0 := func.Types(), func.cfg.blocks;
    var cur := bb;
    ghost var heads, trues: seq<nat> := [bb], [];
    MidwayStart(types0, b0, bb, cols, tree, last, mode);
    for k := 0 to |tree.cases|
      invariant func.Valid() && |trues| == k
      invariant Midway(types0, func.Types(), b0, func.cfg.blocks, bb, cur, cols, tree, heads, trues, last, mode)
    {
      ghost var types1, b1, cur1 := func.Types(), func.cfg.blocks, cur;
      MidwayReady(types0, types1, b0, b1, bb, cur, cols, tree, heads, trues, last, mode);
      CaseFitsAt(tree, cols, mode, k);
      ghost var t;
      cur, t := EmitSimpleCase(func, cur, tree.cases[k], cols, tree.column, last, mode, |types0|);
      MidwayStep(types0, types1, func.Types(), b0, b1, func.cfg.blocks, bb, cur1, cur, t, cols, tree, heads, trues, last, mode);
      heads, trues := heads + [cur], trues + [t];
    }
    ghost var types1, b1 := func.Types(), func.cfg.blocks;
    MidwayReady(types0, types1, b0, b1, bb, cur, cols, tree, heads, trues, last, mode);
    EmitDefault(func, cur, tree, cols, last, mode, |types0|);
    MidwayEnd(types0, types1, func.Types(), b0, b1, func.cfg.blocks, bb, cur, cols, tree, heads, trues, last, mode);
  }

  lemma MidwayReady(types0: seq<ValType>, types: seq<ValType>, b0: seq<BasicBlock>, blocks: seq<BasicBlock>, bb: nat, cur: nat,
                    cols: seq<Col>, tree: Tree, heads: seq<nat>, trues: seq<nat>, last: nat, mode: Mode)
    requires tree.Switch? && Midway(types0, types, b0, blocks, bb, cur, cols, tree, heads, trues, last, mode)
    ensures CanEmit(types, blocks, cur, cols, last, mode) && |types0| <= |types|
    ensures bb < |b0| && cur < |blocks|
  {
  }

  method EmitEnumSwitch(func: StFunction, bb: nat, tree: Tree, cols: seq<Col>, last: nat, mode: Mode)
    requires func.Valid() && CanEmit(func.Types(), func.cfg.blocks, bb, cols, last, mode)
    requires tree.Switch? && TreeFits(tree, ColTypes(cols), Decl(mode))
    requires tree.column < |cols| && cols[tree.column].ty.Enum?
    modifies func, func.cfg
    ensures func.Valid()
    ensures Emitted(old(func.Types()), func.Types(), old(func.cfg.blocks), func.cfg.blocks, bb, cols, tree, last, mode)
    decreases tree, 2
  {
    hide TreeFits, Midway, CanEmit, CaseFits, CaseEmitted, Emitted, Grown, Tail, CoreTypes;
    ghost var types0, b0 := func.Types(), func.cfg.blocks;
    var enumCore := StarToCoreTypes([], cols[tree.column].ty);
    var cur := bb;
    ghost var heads, trues: seq<nat> := [bb], [];
    MidwayStart(types0, b0, bb, cols, tree, last, mode);
    for k := 0 to |tree.cases|
      invariant func.Valid() && |trues| == k
      invariant Midway(types0, func.Types(), b0, func.cfg.blocks, bb, cur, cols, tree, heads, trues, last, mode)
    {
      ghost var types1, b1, cur1 := func.Types(), func.cfg.blocks, cur;
      MidwayReady(types0, types1, b0, b1, bb, cur, cols, tree, heads, trues, last, mode);
      CaseFitsAt(tree, cols, mode, k);
      ghost var t;
      cur, t := EmitEnumCase(func, cur, tree.cases[k], cols, tree.column, enumCore, last, mode, |types0|);
      MidwayStep(types0, types1, func.Types(), b0, b1, func.cfg.blocks, bb, cur1, cur, t, cols, tree, heads, trues, last, mode);
      heads, trues := heads + [cur], trues + [t];
    }
    ghost var types1, b1 := func.Types(), func.cfg.blocks;
    MidwayReady(types0, types1, b0, b1, bb, cur, cols, tree, heads, trues, last, mode);
    EmitDefault(func, cur, tree, cols, last, mode, |types0|);
    MidwayEnd(types0, types1, func.Types(), b0, b1, func.cfg.blocks, bb, cur, cols, tree, heads, trues, last, mode);
  }

  /** A struct or unit column: no test, just its fields' columns. */
  method EmitStruct(func: StFunction, bb: nat, tree: Tree, cols: seq<Col>, last: nat, mode: Mode)
    requires func.Valid() && CanEmit(func.Types(), func.cfg.blocks, bb, cols, last, mode)
    requires tree.Switch? && TreeFits(tree, ColTypes(cols), Decl(mode)) && tree.column < |cols|
    requires cols[tree.column].ty.Tuple? || cols[tree.column].ty.Record? || cols[tree.column].ty.Unit?
    modifies func, func.cfg
    ensures func.Valid()
    ensures Emitted(old(func.Types()), func.Types(), old(func.cfg.blocks), func.cfg.blocks, bb, cols, tree, last, mode)
    decreases tree, 2
  {
    SwitchFits(tree, cols, mode);
    CaseFitsAt(tree, cols, mode, 0);
    ghost var types0, b0 := func.Types(), func.cfg.blocks;
    var column, c := tree.column, tree.cases[0];
    var base, fts := cols[column].local, FieldTypes(c.ctor, cols[column].ty);
    StructCore(c, cols, column);
    hide TreeFits, Grown, Decides, ModeOk, ColsIn, Splice, Sized, CtorOk, CoreTypes, CoreTypesAll, FieldCols, FieldTypes;
    var newCols := ExpandColLocalsForStruct(cols, column, base, fts);
    InsideReady(mode, cols, column, fts, types0);
    EmitDecisionTree(func, bb, c.tree, newCols, last, mode);
    StructDecides(func.Types(), func.cfg.blocks, bb, |b0[bb].instructions|, cols, column, tree.cases, tree.default, last, mode,
                  |types0|);
    assert tree == Switch(column, tree.cases, tree.default);
  }

  lemma StructCore(c: Case, cols: seq<Col>, column: nat)
    requires column < |cols| && CtorOk(c.ctor, cols[column].ty)
    requires cols[column].ty.Tuple? || cols[column].ty.Record? || cols[column].ty.Unit?
    ensures |CoreTypesAll(FieldTypes(c.ctor, cols[column].ty))| <= |CoreTypes(cols[column].ty)|
    ensures CtorOf(c.ctor, cols[column].ty)
  {
    if !cols[column].ty.Unit? {
      CoreTypesOfMembers(cols[column].ty);
    }
  }

  /** A column without constructors is never tested. */
  lemma NothingTested(types: seq<ValType>, blocks: seq<BasicBlock>, bb: nat, p: nat, cols: seq<Col>, tree: Tree,
                      last: nat, mode: Mode, n: nat)
    requires tree.Switch? && tree.column < |cols| && cols[tree.column].ty.Handle?
    ensures Decides(types, blocks, bb, p, cols, tree, last, mode, n)
  {
    hide RunFrom, Laid, TypedLocals;
    forall vs, st
      ensures DecidesOn(types, blocks, bb, p, cols, tree, last, mode, n, vs, st)
    {
      if Premises(types, cols, vs, st) {
        assert HasType(vs[tree.column], ColTypes(cols)[tree.column]);
        assert HeadOf(vs[tree.column]).None?;
      }
    }
  }

  /** The code of a decision tree. For all values laid out in the columns' locals it
      enters the arm that walking the tree selects, with every variable bound to the
      locals of its value, or traps; and it leaves all earlier locals alone. */
  method EmitDecisionTree(func: StFunction, bb: nat, tree: Tree, cols: seq<Col>, last: nat, mode: Mode)
    requires func.Valid() && CanEmit(func.Types(), func.cfg.blocks, bb, cols, last, mode)
    requires TreeFits(tree, ColTypes(cols), Decl(mode))
    modifies func, func.cfg
    ensures func.Valid()
    ensures Emitted(old(func.Types()), func.Types(), old(func.cfg.blocks), func.cfg.blocks, bb, cols, tree, last, mode)
    decreases tree, 3
  {
    match tree {
      case Leaf(action, bindings) => EmitLeaf(func, bb, action, bindings, cols, last, mode);
      case Fail => EmitFail(func, bb, cols, last, mode);
      case Switch(column, _, _) =>
        SwitchFits(tree, cols, mode);
        hide TreeFits, CanEmit, Emitted;
        match cols[column].ty {
          case Enum(_) => EmitEnumSwitch(func, bb, tree, cols, last, mode);
          case Bool => EmitSimpleSwitch(func, bb, tree, cols, last, mode);
          case Int(_) => EmitSimpleSwitch(func, bb, tree, cols, last, mode);
          case Record(_) => EmitStruct(func, bb, tree, cols, last, mode);
          case Tuple(_) => EmitStruct(func, bb, tree, cols, last, mode);
          case Unit => EmitStruct(func, bb, tree, cols, last, mode);
          case Handle => EmitUntested(func, bb, tree, cols, last, mode);
        }
    }
  }

  method EmitUntested(func: StFunction, bb: nat, tree: Tree, cols: seq<Col>, last: nat, mode: Mode)
    requires func.Valid() && CanEmit(func.Types(), func.cfg.blocks, bb, cols, last, mode)
    requires tree.Switch? && tree.column < |cols| && cols[tree.column].ty.Handle?
    modifies func.cfg
    ensures func.Valid()
    ensures Emitted(func.Types(), func.Types(), old(func.cfg.blocks), func.cfg.blocks, bb, cols, tree, last, mode)
  {
    ghost var types0, b0 := func.Types(), func.cfg.blocks;
    Finish(func, bb, [], Unreachable, last);
    FilledGrown(b0, func.cfg.blocks, bb, [], Unreachable, last);
    NothingTested(types0, func.cfg.blocks, bb, |b0[bb].instructions|, cols, tree, last, mode, |types0|);
  }
}

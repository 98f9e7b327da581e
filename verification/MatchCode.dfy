/** Why the code emitted for each kind of decision-tree node does what the node
    says (`emit_decision_tree` and its helpers in `lib.rs`). */
module MatchCode {
  import opened Options
  import opened ControlFlow
  import opened StarTypes
  import opened DecisionTree
  import opened FirstMatch
  import opened Wasm
  import opened Flatten
  import opened EnumEncoding
  import opened Columns
  import opened Ir
  import opened FuncRun
  import opened MatchSpec

  // ---- Tests.

  /** Push whether the value whose slots start at `base` has the constructor. */
  function TestCode(c: Ctor, t: Type, base: nat): seq<Instr> {
    match c
    case EnumVariant(k) => [LocalGet(base), I32Const(k), I32Eq]
    case BoolTrue => [LocalGet(base)]
    case BoolFalse => [LocalGet(base), I32Eqz]
    case IntLiteral(n) =>
      if t.Int? && Is64Bit(t.w) then [LocalGet(base), I64Const(n), I64Eq] else [LocalGet(base), I32Const(n), I32Eq]
    case _ => []
  }

  lemma IntSlotOf(w: IntWidth, n: int)
    ensures IntSlot(w, FromBits(w, IntSlot(w, n))) == IntSlot(w, n)
  {
    var s := IntSlot(w, n);
    if Is64Bit(w) {
      assert FromBits(w, s) == s.bits || FromBits(w, s) == s.bits - TWO64;
      assert (s.bits - TWO64) % TWO64 == s.bits;
    } else {
      assert FromBits(w, s) == s.bits || FromBits(w, s) == s.bits - TWO32;
      assert (s.bits - TWO32) % TWO32 == s.bits;
    }
  }

  /** Comparing slots is comparing numbers, for all values of the type, if and
      only if the literal is represented by its own slot only. */
  lemma TestExact(w: IntWidth, n: int)
    ensures (forall v :: Fits(w, v) ==> (IntSlot(w, v) == IntSlot(w, n) <==> v == n)) <==> LiteralOk(w, n)
  {
    IntSlotOf(w, n);
    forall v | Fits(w, v)
      ensures FromBits(w, IntSlot(w, v)) == v
    {
      IntSlotBack(w, v);
    }
    if !LiteralOk(w, n) {
      var v := FromBits(w, IntSlot(w, n));
      assert Fits(w, v) && v != n && IntSlot(w, v) == IntSlot(w, n);
    }
  }

  lemma EqTest(st: State, s: Slot, c: Slot, x: nat, i: Instr, eq: Instr)
    requires x < |st.locals| && st.locals[x] == s
    requires (s.W32? && c.W32? && eq == I32Eq) || (s.W64? && c.W64? && eq == I64Eq)
    requires forall st' :: Step(i, st') == Some(Push(st', c))
    ensures Exec([LocalGet(x), i, eq], st) == Some(Push(st, Truth(c == s)))
  {
    var st1, st2 := Push(st, s), Push(Push(st, s), c);
    GetSteps(x, st);
    assert st2.stack[..|st1.stack|] == st1.stack && st1.stack[..|st.stack|] == st.stack;
    assert Drop(st2, 1) == st1 && Drop(st2, 2) == st;
    assert Step(eq, st2) == Some(Push(st, Truth(c == s)));
    hide Step, Exec, Push, Drop;
    StepThen(LocalGet(x), [i, eq], st, st1);
    StepThen(i, [eq], st1, st2);
    ExecOne(eq, st2);
    assert [LocalGet(x), i, eq] == [LocalGet(x)] + [i, eq] && [i, eq] == [i] + [eq];
  }

  /** The test tells the constructor. */
  lemma TestRuns(c: Ctor, t: Type, base: nat, v: Value, st: State)
    requires HasType(v, t) && Sized(t) && CtorOk(c, t) && (t.Enum? || t.Bool? || t.Int?)
    requires Holds(st.locals, base, FlatV(v, t))
    ensures Exec(TestCode(c, t, base), st) == Some(Push(st, Truth(HeadOf(v) == Some(c))))
  {
    hide Exec, Sized;
    match c {
      case EnumVariant(k) => EnumTestRuns(k, t, base, v, st);
      case BoolTrue =>
        BoolLaid(v, base, st);
        GetSteps(base, st);
        ExecOne(LocalGet(base), st);
      case BoolFalse =>
        BoolLaid(v, base, st);
        NotTest(st, Truth(v.b), base);
      case IntLiteral(n) =>
        IntLaid(t.w, v, base, st);
        TestExact(t.w, n);
        IntTest(t.w, n, v.n, base, st);
    }
  }

  lemma BoolLaid(v: Value, base: nat, st: State)
    requires v.BoolV? && Holds(st.locals, base, FlatV(v, Bool))
    ensures base < |st.locals| && st.locals[base] == Truth(v.b)
  {
    assert st.locals[base + 0] == FlatV(v, Bool)[0];
  }

  lemma IntLaid(w: IntWidth, v: Value, base: nat, st: State)
    requires HasType(v, Int(w)) && Holds(st.locals, base, FlatV(v, Int(w)))
    ensures base < |st.locals| && st.locals[base] == IntSlot(w, v.n)
  {
    assert st.locals[base + 0] == FlatV(v, Int(w))[0];
  }

  lemma EnumTestRuns(k: nat, t: Type, base: nat, v: Value, st: State)
    requires HasType(v, t) && Sized(t) && t.Enum? && CtorOk(EnumVariant(k), t)
    requires Holds(st.locals, base, FlatV(v, t))
    ensures Exec(TestCode(EnumVariant(k), t, base), st) == Some(Push(st, Truth(HeadOf(v) == Some(EnumVariant(k)))))
  {
    hide Step, Exec, FlatV, Sized, Holds, HasType, JoinVariants;
    EnumLaid(k, t, base, v, st);
    ConstsPush(k);
    EqTest(st, W32(v.variant % TWO32), W32(k % TWO32), base, I32Const(k), I32Eq);
  }

  lemma EnumLaid(k: nat, t: Type, base: nat, v: Value, st: State)
    requires HasType(v, t) && Sized(t) && t.Enum? && CtorOk(EnumVariant(k), t)
    requires Holds(st.locals, base, FlatV(v, t))
    ensures v.EnumV? && base < |st.locals| && st.locals[base] == W32(v.variant % TWO32)
    ensures (v.variant % TWO32 == k % TWO32) <==> v.variant == k
  {
    hide JoinVariants, FlatAll, PromoteAll;
    assert st.locals[base + 0] == FlatV(v, t)[0];
    assert |t.variants| <= TWO32 && k < |t.variants| && v.variant < |t.variants|;
    Bits32(k);
    Bits32(v.variant);
  }

  lemma ConstsPush(n: int)
    ensures forall st :: Step(I32Const(n), st) == Some(Push(st, W32(n % TWO32)))
    ensures forall st :: Step(I64Const(n), st) == Some(Push(st, W64(n % TWO64)))
  {
  }

  lemma NotTest(st: State, s: Slot, x: nat)
    requires x < |st.locals| && st.locals[x] == s && s.W32?
    ensures Exec([LocalGet(x), I32Eqz], st) == Some(Push(st, Truth(s.bits == 0)))
  {
    GetSteps(x, st);
    EqzSteps(st, s);
    hide *;
    StepThen(LocalGet(x), [I32Eqz], st, Push(st, s));
    ExecOne(I32Eqz, Push(st, s));
    assert [LocalGet(x), I32Eqz] == [LocalGet(x)] + [I32Eqz];
  }

  lemma IntTest(w: IntWidth, n: int, v: int, base: nat, st: State)
    requires base < |st.locals| && st.locals[base] == IntSlot(w, v)
    ensures Exec(TestCode(IntLiteral(n), Int(w), base), st) == Some(Push(st, Truth(IntSlot(w, n) == IntSlot(w, v))))
  {
    hide Step, Exec;
    ConstsPush(n);
    if Is64Bit(w) {
      EqTest(st, IntSlot(w, v), IntSlot(w, n), base, I64Const(n), I64Eq);
    } else {
      EqTest(st, IntSlot(w, v), IntSlot(w, n), base, I32Const(n), I32Eq);
    }
  }

  // ---- The cascade of a switch.

  /** Block h tests from its p-th instruction on, and goes to t or to f. */
  ghost predicate Link(blocks: seq<BasicBlock>, h: nat, p: nat, test: seq<Instr>, t: nat, f: nat, last: nat) {
    && h < |blocks| && h < t && h < f && t != last && f != last
    && p <= |blocks[h].instructions| && blocks[h].instructions[p..] == test && blocks[h].out == If(f, t)
  }

  lemma LinkStable(blocks: seq<BasicBlock>, blocks': seq<BasicBlock>, h: nat, p: nat, test: seq<Instr>, t: nat, f: nat,
                   last: nat)
    requires Link(blocks, h, p, test, t, f, last) && Keeps(blocks, blocks')
    ensures Link(blocks', h, p, test, t, f, last)
  {
  }

  lemma LinkRuns(blocks: seq<BasicBlock>, h: nat, p: nat, test: seq<Instr>, t: nat, f: nat, last: nat, st: State, b: bool)
    requires Link(blocks, h, p, test, t, f, last) && Exec(test, st) == Some(Push(st, Truth(b)))
    ensures RunFrom(blocks, h, p, st, last) == RunFrom(blocks, if b then t else f, 0, st, last)
  {
    var st1 := Push(st, Truth(b));
    RunOut(blocks, h, p, st, st1, last);
    assert st1.stack[..|st.stack|] == st.stack;
    assert Drop(st1, 1) == st;
  }

  /** The blocks of the tests in turn, and of the cases. */
  ghost predicate Chained(blocks: seq<BasicBlock>, cases: seq<Case>, t: Type, base: nat, p: nat,
                          heads: seq<nat>, trues: seq<nat>, last: nat)
  {
    && |heads| == |trues| + 1 && |trues| <= |cases|
    && forall j :: 0 <= j < |trues| ==>
         Link(blocks, heads[j], if j == 0 then p else 0, TestCode(cases[j].ctor, t, base), trues[j], heads[j + 1], last)
  }

  ghost predicate AllBranch(types: seq<ValType>, blocks: seq<BasicBlock>, trues: seq<nat>, cols: seq<Col>, col: nat,
                            cases: seq<Case>, last: nat, mode: Mode, n: nat)
  {
    && |trues| <= |cases|
    && forall j :: 0 <= j < |trues| ==> Branches(types, blocks, trues[j], cols, col, cases[j], last, mode, n)
  }

  ghost predicate TailOn(types: seq<ValType>, blocks: seq<BasicBlock>, h: nat, p: nat, cols: seq<Col>, col: nat,
                         default: Option<Tree>, last: nat, mode: Mode, n: nat, vs: seq<Value>, st: State)
  {
    Premises(types, cols, vs, st) && col < |cols| && default.Some? ==>
      EndsAs(RunFrom(blocks, h, p, st, last), st, WalkDefault(default.value, vs, ColTypes(cols), col), mode, n)
  }

  /** The block after the last test does what the default says. */
  ghost predicate Tail(types: seq<ValType>, blocks: seq<BasicBlock>, h: nat, p: nat, cols: seq<Col>, col: nat,
                       default: Option<Tree>, last: nat, mode: Mode, n: nat)
  {
    forall vs, st :: TailOn(types, blocks, h, p, cols, col, default, last, mode, n, vs, st)
  }

  /** From the j-th test on, when no earlier case applies. */
  lemma {:induction false} CascadeFrom(types: seq<ValType>, blocks: seq<BasicBlock>, cols: seq<Col>, col: nat,
                                       cases: seq<Case>, default: Option<Tree>, heads: seq<nat>, trues: seq<nat>,
                                       p: nat, last: nat, mode: Mode, n: nat, vs: seq<Value>, st: State, c: Ctor, j: nat)
    requires Premises(types, cols, vs, st) && col < |cols| && Sized(cols[col].ty) && HeadOf(vs[col]) == Some(c)
    requires cols[col].ty.Enum? || cols[col].ty.Bool? || cols[col].ty.Int?
    requires forall k :: 0 <= k < |cases| ==> CtorOk(cases[k].ctor, cols[col].ty)
    requires Chained(blocks, cases, cols[col].ty, cols[col].local, p, heads, trues, last) && |trues| == |cases|
    requires AllBranch(types, blocks, trues, cols, col, cases, last, mode, n)
    requires Tail(types, blocks, heads[|cases|], if cases == [] then p else 0, cols, col, default, last, mode, n)
    requires j <= |cases| && forall k :: 0 <= k < j ==> cases[k].ctor != c
    ensures EndsAs(RunFrom(blocks, heads[j], if j == 0 then p else 0, st, last), st,
                   Walk(Switch(col, cases, default), vs, ColTypes(cols)), mode, n)
    decreases |cases| - j
  {
    hide RunFrom, EndsAs, Walk, WalkCase, WalkDefault, TypedLocals, TestCode, HasType, Sized, FlatV, Holds, HeadOf;
    var ts := ColTypes(cols);
    if j == |cases| {
      CaseIndexIs(cases, c);
      WalkSwitch(col, cases, default, vs, ts);
      assert TailOn(types, blocks, heads[j], if j == 0 then p else 0, cols, col, default, last, mode, n, vs, st);
      if default.None? {
        EndsAsStuck(RunFrom(blocks, heads[j], if j == 0 then p else 0, st, last), st, mode, n);
      }
    } else {
      var test, q := TestCode(cases[j].ctor, ts[col], cols[col].local), if j == 0 then p else 0;
      TestRuns(cases[j].ctor, ts[col], cols[col].local, vs[col], st);
      LinkRuns(blocks, heads[j], q, test, trues[j], heads[j + 1], last, st, cases[j].ctor == c);
      if cases[j].ctor == c {
        WalkTakes(col, cases, default, vs, ts, j);
        assert Branches(types, blocks, trues[j], cols, col, cases[j], last, mode, n);
        assert BranchOn(types, blocks, trues[j], cols, col, cases[j], last, mode, n, vs, st);
      } else {
        CascadeFrom(types, blocks, cols, col, cases, default, heads, trues, p, last, mode, n, vs, st, c, j + 1);
      }
    }
  }

  lemma CascadeDecides(types: seq<ValType>, blocks: seq<BasicBlock>, cols: seq<Col>, col: nat,
                       cases: seq<Case>, default: Option<Tree>, heads: seq<nat>, trues: seq<nat>,
                       p: nat, last: nat, mode: Mode, n: nat)
    requires col < |cols| && Sized(cols[col].ty) && (cols[col].ty.Enum? || cols[col].ty.Bool? || cols[col].ty.Int?)
    requires forall k :: 0 <= k < |cases| ==> CtorOk(cases[k].ctor, cols[col].ty)
    requires Chained(blocks, cases, cols[col].ty, cols[col].local, p, heads, trues, last) && |trues| == |cases|
    requires AllBranch(types, blocks, trues, cols, col, cases, last, mode, n)
    requires Tail(types, blocks, heads[|cases|], if cases == [] then p else 0, cols, col, default, last, mode, n)
    ensures Decides(types, blocks, heads[0], p, cols, Switch(col, cases, default), last, mode, n)
  {
    assert |heads| == |cases| + 1;
    hide RunFrom, EndsAs, Walk, TypedLocals, Chained, AllBranch, Tail, Sized, Laid, CtorOk;
    forall vs, st
      ensures DecidesOn(types, blocks, heads[0], p, cols, Switch(col, cases, default), last, mode, n, vs, st)
    {
      if Premises(types, cols, vs, st) {
        assert HasType(vs[col], ColTypes(cols)[col]);
        var c := HeadOf(vs[col]).value;
        CascadeFrom(types, blocks, cols, col, cases, default, heads, trues, p, last, mode, n, vs, st, c, 0);
      }
    }
  }

  // ---- Values without a test: structs and unit.

  lemma StructFlat(v: Value, t: Type)
    requires HasType(v, t) && (t.Tuple? || t.Record? || t.Unit?)
    ensures HeadOf(v).Some? && HaveTypes(Args(v), FieldTypes(HeadOf(v).value, t))
    ensures FlatV(v, t) == FlatAll(Args(v), FieldTypes(HeadOf(v).value, t))
    ensures HeadOf(v).value == if t.Unit? then UnitCtor else StructCtor
  {
  }

  lemma StructDecides(types: seq<ValType>, blocks: seq<BasicBlock>, bb: nat, p: nat, cols: seq<Col>, col: nat,
                      cases: seq<Case>, default: Option<Tree>, last: nat, mode: Mode, n: nat)
    requires col < |cols| && cases != [] && CtorOk(cases[0].ctor, cols[col].ty)
    requires cols[col].ty.Tuple? || cols[col].ty.Record? || cols[col].ty.Unit?
    requires Decides(types, blocks, bb, p,
                     Splice(cols, col, FieldCols(cols[col].local, FieldTypes(cases[0].ctor, cols[col].ty))),
                     cases[0].tree, last, mode, n)
    ensures Decides(types, blocks, bb, p, cols, Switch(col, cases, default), last, mode, n)
  {
    var ts, t := ColTypes(cols), cols[col].ty;
    var fts := FieldTypes(cases[0].ctor, t);
    var mid := FieldCols(cols[col].local, fts);
    var cols' := Splice(cols, col, mid);
    FieldColTypes(cols[col].local, fts);
    SpliceColTypes(cols, col, mid);
    hide RunFrom, EndsAs, Walk, TypedLocals, Splice, FieldCols, CoreTypes, Decides;
    forall vs, st
      ensures DecidesOn(types, blocks, bb, p, cols, Switch(col, cases, default), last, mode, n, vs, st)
    {
      if Premises(types, cols, vs, st) {
        StructColumn(cols, col, cases[0], vs, st);
        WalkTakes(col, cases, default, vs, ts, 0);
        DecidesAt(types, blocks, bb, p, cols', cases[0].tree, last, mode, n, Splice(vs, col, Args(vs[col])), st);
      }
    }
    DecidesAll(types, blocks, bb, p, cols, Switch(col, cases, default), last, mode, n);
  }

  lemma DecidesAt(types: seq<ValType>, blocks: seq<BasicBlock>, bb: nat, p: nat, cols: seq<Col>, tree: Tree,
                  last: nat, mode: Mode, n: nat, vs: seq<Value>, st: State)
    requires Decides(types, blocks, bb, p, cols, tree, last, mode, n) && Premises(types, cols, vs, st)
    ensures EndsAs(RunFrom(blocks, bb, p, st, last), st, Walk(tree, vs, ColTypes(cols)), mode, n)
  {
    hide RunFrom, EndsAs, Walk, Premises;
    assert DecidesOn(types, blocks, bb, p, cols, tree, last, mode, n, vs, st);
  }

  lemma DecidesAll(types: seq<ValType>, blocks: seq<BasicBlock>, bb: nat, p: nat, cols: seq<Col>, tree: Tree,
                   last: nat, mode: Mode, n: nat)
    requires forall vs, st :: DecidesOn(types, blocks, bb, p, cols, tree, last, mode, n, vs, st)
    ensures Decides(types, blocks, bb, p, cols, tree, last, mode, n)
  {
  }

  /** The fields' columns are laid out inside the struct's column. */
  lemma StructColumn(cols: seq<Col>, col: nat, c: Case, vs: seq<Value>, st: State)
    requires HaveTypes(vs, ColTypes(cols)) && Laid(cols, vs, st.locals)
    requires col < |cols| && CtorOf(c.ctor, cols[col].ty)
    requires cols[col].ty.Tuple? || cols[col].ty.Record? || cols[col].ty.Unit?
    ensures HeadOf(vs[col]) == Some(c.ctor)
    ensures HaveTypes(Splice(vs, col, Args(vs[col])),
                      ColTypes(Splice(cols, col, FieldCols(cols[col].local, FieldTypes(c.ctor, cols[col].ty)))))
    ensures Laid(Splice(cols, col, FieldCols(cols[col].local, FieldTypes(c.ctor, cols[col].ty))),
                 Splice(vs, col, Args(vs[col])), st.locals)
  {
    var ts, t, v := ColTypes(cols), cols[col].ty, vs[col];
    StructFlat(v, t);
    var args, fts := Args(v), FieldTypes(c.ctor, t);
    assert HaveTypes(args, fts);
    assert Holds(st.locals, cols[col].local, FlatAll(args, fts));
    hide FlatV, FlatAll, HasType, Holds, Splice, CoreTypes, CoreTypesAll, FieldCols, Args, FieldTypes, Laid;
    FieldsLaid(st.locals, cols[col].local, args, fts);
    SpliceValues(vs, ts, col, args, fts);
    SpliceColTypes(cols, col, FieldCols(cols[col].local, fts));
    SpliceLaid(cols, vs, col, FieldCols(cols[col].local, fts), args, st.locals);
  }

  // ---- Bool and int cases, and defaults: the column just goes.

  lemma DropColumn(cols: seq<Col>, col: nat, vs: seq<Value>, locals: seq<Slot>)
    requires HaveTypes(vs, ColTypes(cols)) && Laid(cols, vs, locals) && col < |cols|
    ensures ColTypes(Splice(cols, col, [])) == Splice(ColTypes(cols), col, [])
    ensures HaveTypes(Splice(vs, col, []), ColTypes(Splice(cols, col, [])))
    ensures Laid(Splice(cols, col, []), Splice(vs, col, []), locals)
  {
    hide HasType, Splice;
    SpliceColTypes(cols, col, []);
    SpliceValues(vs, ColTypes(cols), col, [], []);
    SpliceLaid(cols, vs, col, [], [], locals);
  }

  lemma DefaultTail(types: seq<ValType>, blocks: seq<BasicBlock>, h: nat, p: nat, cols: seq<Col>, col: nat,
                    default: Tree, last: nat, mode: Mode, n: nat)
    requires col < |cols|
    requires Decides(types, blocks, h, p, Splice(cols, col, []), default, last, mode, n)
    ensures Tail(types, blocks, h, p, cols, col, Some(default), last, mode, n)
  {
    hide RunFrom, EndsAs, Walk, TypedLocals, Splice, Decides, Laid;
    forall vs, st
      ensures TailOn(types, blocks, h, p, cols, col, Some(default), last, mode, n, vs, st)
    {
      if Premises(types, cols, vs, st) {
        DropColumn(cols, col, vs, st.locals);
        DecidesAt(types, blocks, h, p, Splice(cols, col, []), default, last, mode, n, Splice(vs, col, []), st);
      }
    }
  }

  lemma NoTail(types: seq<ValType>, blocks: seq<BasicBlock>, h: nat, p: nat, cols: seq<Col>, col: nat,
               last: nat, mode: Mode, n: nat)
    ensures Tail(types, blocks, h, p, cols, col, None, last, mode, n)
  {
  }

  lemma SimpleBranch(types: seq<ValType>, blocks: seq<BasicBlock>, t: nat, cols: seq<Col>, col: nat, c: Case,
                     last: nat, mode: Mode, n: nat)
    requires col < |cols| && (cols[col].ty.Bool? || cols[col].ty.Int?) && CtorOf(c.ctor, cols[col].ty)
    requires Decides(types, blocks, t, 0, Splice(cols, col, []), c.tree, last, mode, n)
    ensures Branches(types, blocks, t, cols, col, c, last, mode, n)
  {
    hide RunFrom, EndsAs, Walk, TypedLocals, Splice, Decides, Laid;
    forall vs, st
      ensures BranchOn(types, blocks, t, cols, col, c, last, mode, n, vs, st)
    {
      if Premises(types, cols, vs, st) && HeadOf(vs[col]) == Some(c.ctor) {
        DropColumn(cols, col, vs, st.locals);
        assert HasType(vs[col], ColTypes(cols)[col]);
        assert Args(vs[col]) == [] && FieldTypes(c.ctor, ColTypes(cols)[col]) == [];
        DecidesAt(types, blocks, t, 0, Splice(cols, col, []), c.tree, last, mode, n, Splice(vs, col, []), st);
      }
    }
  }
}

/** Leaves of a decision tree: an arm gets its variables' locals; a `let` copies
    them into locals of their own. */
module MatchLeaf {
  import opened Options
  import opened ControlFlow
  import opened StarTypes
  import opened DecisionTree
  import opened FirstMatch
  import opened Wasm
  import opened Flatten
  import opened EnumEncoding
  import opened Columns
  import opened Ir
  import opened FuncRun
  import opened MatchSpec

  predicate InCols(bindings: seq<LeafBinding>, cols: seq<Col>) {
    forall k :: 0 <= k < |bindings| ==> bindings[k].column < |cols|
  }

  // ---- Arms.

  /** The arm's variables after the first n bindings; a later one of the same
      name replaces an earlier one. */
  function EnvUpTo(bindings: seq<LeafBinding>, cols: seq<Col>, action: nat, n: nat): map<string, nat>
    requires InCols(bindings, cols) && n <= |bindings|
  {
    if n == 0 then map[]
    else
      var before, b := EnvUpTo(bindings, cols, action, n - 1), bindings[n - 1];
      if b.action == action then before[b.name := cols[b.column].local] else before
  }

  lemma {:induction false} EnvUpToIs(bindings: seq<LeafBinding>, cols: seq<Col>, action: nat, n: nat)
    requires InCols(bindings, cols) && n <= |bindings|
    ensures forall k :: 0 <= k < n && bindings[k].action == action ==>
              bindings[k].name in EnvUpTo(bindings, cols, action, n)
    ensures forall x :: x in EnvUpTo(bindings, cols, action, n) ==>
              exists k :: 0 <= k < n && bindings[k].action == action && bindings[k].name == x
                && EnvUpTo(bindings, cols, action, n)[x] == cols[bindings[k].column].local
  {
    if n > 0 {
      EnvUpToIs(bindings, cols, action, n - 1);
      var env, before := EnvUpTo(bindings, cols, action, n), EnvUpTo(bindings, cols, action, n - 1);
      forall x | x in env
        ensures exists k :: 0 <= k < n && bindings[k].action == action && bindings[k].name == x
                  && env[x] == cols[bindings[k].column].local
      {
        if bindings[n - 1].action == action && bindings[n - 1].name == x {
          assert env[x] == cols[bindings[n - 1].column].local;
        } else {
          assert x in before && env[x] == before[x];
        }
      }
    }
  }

  /** The k-th binding, resolved, is where its column is. */
  lemma ResolvedSlots(bindings: seq<LeafBinding>, cols: seq<Col>, vs: seq<Value>, locals: seq<Slot>, k: nat)
    requires HaveTypes(vs, ColTypes(cols)) && Laid(cols, vs, locals) && InCols(bindings, cols) && k < |bindings|
    requires forall b :: b in bindings ==> b.column < |vs|
    ensures Resolve(bindings, vs, ColTypes(cols))[k]
         == Bound(bindings[k].action, bindings[k].name, vs[bindings[k].column], cols[bindings[k].column].ty)
    ensures SlotsOf(Resolve(bindings, vs, ColTypes(cols))[k], locals, cols[bindings[k].column].local)
  {
    hide FlatV, Holds;
    var i := bindings[k].column;
    assert HasType(vs[i], ColTypes(cols)[i]);
    hide HasType;
    assert Holds(locals, cols[i].local, FlatV(vs[i], cols[i].ty));
  }

  lemma ArmEnv(bindings: seq<LeafBinding>, cols: seq<Col>, action: nat, vs: seq<Value>, locals: seq<Slot>)
    requires HaveTypes(vs, ColTypes(cols)) && Laid(cols, vs, locals) && InCols(bindings, cols)
    requires forall b :: b in bindings ==> b.column < |vs|
    ensures EnvHolds(EnvUpTo(bindings, cols, action, |bindings|), action, Resolve(bindings, vs, ColTypes(cols)), locals)
  {
    var bound, env := Resolve(bindings, vs, ColTypes(cols)), EnvUpTo(bindings, cols, action, |bindings|);
    EnvUpToIs(bindings, cols, action, |bindings|);
    hide Laid, HasType, SlotsOf, EnvUpTo;
    forall x | x in env
      ensures BoundTo(bound, action, x, locals, env[x])
    {
      var k :| 0 <= k < |bindings| && bindings[k].action == action && bindings[k].name == x
        && env[x] == cols[bindings[k].column].local;
      ResolvedSlots(bindings, cols, vs, locals, k);
      assert bound[k] in bound;
    }
    forall b | b in bound && b.arm == action
      ensures b.name in env
    {
      var k :| 0 <= k < |bound| && bound[k] == b;
      assert bindings[k].action == action && bindings[k].name == b.name;
    }
  }

  lemma LeafOutcome(action: nat, bindings: seq<LeafBinding>, vs: seq<Value>, ts: seq<Type>)
    requires HaveTypes(vs, ts) && forall b :: b in bindings ==> b.column < |vs|
    ensures Walk(Leaf(action, bindings), vs, ts) == Hit(action, Resolve(bindings, vs, ts))
  {
  }

  lemma ArmDecides(types: seq<ValType>, blocks: seq<BasicBlock>, bb: nat, p: nat, cols: seq<Col>, action: nat,
                   bindings: seq<LeafBinding>, last: nat, n: nat)
    requires InCols(bindings, cols) && bb < |blocks| && p <= |blocks[bb].instructions|
    requires blocks[bb].instructions[p..] == [ArmBody(action, EnvUpTo(bindings, cols, action, |bindings|))]
    requires blocks[bb].out == Next(last)
    ensures Decides(types, blocks, bb, p, cols, Leaf(action, bindings), last, InMatch, n)
  {
    var env := EnvUpTo(bindings, cols, action, |bindings|);
    hide EnvUpTo, Walk, Laid, TypedLocals, HasType, EnvHolds, Resolve;
    forall vs, st
      ensures DecidesOn(types, blocks, bb, p, cols, Leaf(action, bindings), last, InMatch, n, vs, st)
    {
      if Premises(types, cols, vs, st) {
        assert forall b :: b in bindings ==> b.column < |vs|;
        LeafOutcome(action, bindings, vs, ColTypes(cols));
        var st' := st.(events := st.events + [Entered(action, env)]);
        ExecOne(ArmBody(action, env), st);
        RunOut(blocks, bb, p, st, st', last);
        ArmEnv(bindings, cols, action, vs, st.locals);
        assert EntersArm(st, st', action, Resolve(bindings, vs, ColTypes(cols)));
        assert Framed(st, st', InMatch, n);
      }
    }
  }

  // ---- Failing.

  lemma FailDecides(types: seq<ValType>, blocks: seq<BasicBlock>, bb: nat, p: nat, cols: seq<Col>, last: nat,
                    mode: Mode, n: nat)
    requires bb < |blocks| && p <= |blocks[bb].instructions| && blocks[bb].out == Unreachable
    requires blocks[bb].instructions[p..] == if mode.InLet? && mode.hasElse then [ElseBody] else []
    ensures Decides(types, blocks, bb, p, cols, Fail, last, mode, n)
  {
    hide Laid, TypedLocals, HasType;
    forall vs, st
      ensures DecidesOn(types, blocks, bb, p, cols, Fail, last, mode, n, vs, st)
    {
      if Premises(types, cols, vs, st) {
        ExecOne(ElseBody, st);
        assert st.events + [] == st.events;
        RunOut(blocks, bb, p, st, st.(events := st.events + ElseEvents(mode)), last);
      }
    }
  }

  // ---- Let variables.

  /** The columns' locals do not overlap. */
  predicate Apart(a: Col, b: Col) {
    a.local + |CoreTypes(a.ty)| <= b.local || b.local + |CoreTypes(b.ty)| <= a.local
  }

  /** The variables' locals are declared, and apart from each other and from all
      columns. */
  ghost predicate DestsOk(dests: map<string, Col>, cols: seq<Col>, types: seq<ValType>) {
    && (forall x :: x in dests ==> DestIn(dests[x], types))
    && (forall x, y :: x in dests && y in dests && x != y ==> Apart(dests[x], dests[y]))
    && (forall x, i :: x in dests && 0 <= i < |cols| ==> Apart(dests[x], cols[i]))
  }

  predicate DestIn(d: Col, types: seq<ValType>) {
    d.local + |CoreTypes(d.ty)| <= |types| && types[d.local..d.local + |CoreTypes(d.ty)|] == CoreTypes(d.ty)
  }

  function CopyOneVar(b: LeafBinding, cols: seq<Col>, dests: map<string, Col>): seq<Instr>
    requires b.column < |cols|
  {
    if b.name in dests then
      var ts := CoreTypes(cols[b.column].ty);
      CopyCode(cols[b.column].local, dests[b.name].local, ts, ts, |ts|)
    else []
  }

  function CopyVars(bindings: seq<LeafBinding>, cols: seq<Col>, dests: map<string, Col>, n: nat): seq<Instr>
    requires InCols(bindings, cols) && n <= |bindings|
  {
    if n == 0 then [] else CopyVars(bindings, cols, dests, n - 1) + CopyOneVar(bindings[n - 1], cols, dests)
  }

  /** Copying one variable. */
  lemma VarCopied(src: Col, dst: Col, v: Value, types: seq<ValType>, st: State)
    requires HasType(v, src.ty) && Holds(st.locals, src.local, FlatV(v, src.ty)) && TypedLocals(st.locals, types)
    requires DestIn(dst, types) && dst.ty == src.ty && Apart(dst, src)
    ensures |FlatV(v, src.ty)| == |CoreTypes(src.ty)| && dst.local + |CoreTypes(src.ty)| <= |st.locals|
    ensures Exec(CopyCode(src.local, dst.local, CoreTypes(src.ty), CoreTypes(src.ty), |CoreTypes(src.ty)|), st)
         == Some(st.(locals := Written(st.locals, dst.local, FlatV(v, src.ty))))
    ensures TypedLocals(Written(st.locals, dst.local, FlatV(v, src.ty)), types)
  {
    var ss, ts := FlatV(v, src.ty), CoreTypes(src.ty);
    FlatTyped(v, src.ty);
    WrittenTyped(st.locals, types, dst.local, ss, ts);
    SameDemoted(ss, ts);
    hide Holds, FlatV, CoreTypes, HasType, Exec, Settable, DemoteAll, Written, TypedLocals;
    CopyRuns(src.local, dst.local, ts, ts, |ts|, ss, st);
  }

  lemma SameDemoted(ss: seq<Slot>, ts: seq<ValType>)
    requires OfTypes(ss, ts)
    ensures Bounds(ts, ts) && DemoteAll(ss, ts)[..|ts|] == ss
  {
    forall i | 0 <= i < |ts|
      ensures DemoteAll(ss, ts)[i] == ss[i]
    {
      assert OfType(ss[i], ts[i]);
    }
  }

  /** The first n variables have been copied, and nothing else has changed. */
  ghost predicate VarsCopied(bindings: seq<LeafBinding>, cols: seq<Col>, dests: map<string, Col>, n: nat, vs: seq<Value>,
                             locals: seq<Slot>, locals': seq<Slot>)
    requires HaveTypes(vs, ColTypes(cols)) && InCols(bindings, cols) && n <= |bindings|
  {
    && |locals'| == |locals|
    && (forall x :: 0 <= x < |locals| ==> locals'[x] == locals[x] || exists y :: y in dests && InDest(dests[y], x))
    && (forall k :: 0 <= k < n && bindings[k].name in dests ==>
          SomeCopied(bindings, cols, n, vs, locals', bindings[k].name, dests[bindings[k].name].local))
  }

  ghost predicate SomeCopied(bindings: seq<LeafBinding>, cols: seq<Col>, n: nat, vs: seq<Value>, locals: seq<Slot>,
                             name: string, base: nat)
    requires HaveTypes(vs, ColTypes(cols)) && InCols(bindings, cols) && n <= |bindings|
  {
    exists k :: 0 <= k < n && bindings[k].name == name
      && Holds(locals, base, FlatV(vs[bindings[k].column], cols[bindings[k].column].ty))
  }

  /** Writing one variable's locals leaves all columns and other variables alone. */
  lemma ApartKept(a: Col, d: Col, v: Value, locals: seq<Slot>, ss: seq<Slot>)
    requires Apart(d, a) && HasType(v, a.ty) && Holds(locals, a.local, FlatV(v, a.ty))
    requires d.local + |ss| <= |locals| && |ss| == |CoreTypes(d.ty)|
    ensures Holds(Written(locals, d.local, ss), a.local, FlatV(v, a.ty))
  {
    SlotsCount(v, a.ty);
    hide FlatV, HasType, CoreTypes;
  }

  lemma LaidApart(cols: seq<Col>, vs: seq<Value>, d: Col, locals: seq<Slot>, ss: seq<Slot>)
    requires HaveTypes(vs, ColTypes(cols)) && Laid(cols, vs, locals)
    requires d.local + |ss| <= |locals| && |ss| == |CoreTypes(d.ty)|
    requires forall i :: 0 <= i < |cols| ==> Apart(d, cols[i])
    ensures Laid(cols, vs, Written(locals, d.local, ss))
  {
    hide FlatV, HasType, CoreTypes, Written, Holds, Apart;
    forall i | 0 <= i < |cols|
      ensures Holds(Written(locals, d.local, ss), cols[i].local, FlatV(vs[i], cols[i].ty))
    {
      ApartKept(cols[i], d, vs[i], locals, ss);
    }
  }

  lemma HoldsWritten(locals: seq<Slot>, base: nat, ss: seq<Slot>)
    requires base + |ss| <= |locals|
    ensures Holds(Written(locals, base, ss), base, ss)
  {
  }

  /** One more variable. */
  lemma VarStep(bindings: seq<LeafBinding>, cols: seq<Col>, dests: map<string, Col>, types: seq<ValType>, n: nat,
                vs: seq<Value>, locals: seq<Slot>, mid: seq<Slot>, ss: seq<Slot>)
    requires HaveTypes(vs, ColTypes(cols)) && InCols(bindings, cols) && n < |bindings| && DestsOk(dests, cols, types)
    requires forall k :: 0 <= k <= n && bindings[k].name in dests ==>
               dests[bindings[k].name].ty == cols[bindings[k].column].ty
    requires bindings[n].name in dests && VarsCopied(bindings, cols, dests, n, vs, locals, mid)
    requires ss == FlatV(vs[bindings[n].column], cols[bindings[n].column].ty)
    requires dests[bindings[n].name].local + |ss| <= |mid|
    ensures VarsCopied(bindings, cols, dests, n + 1, vs, locals, Written(mid, dests[bindings[n].name].local, ss))
  {
    var b, d := bindings[n], dests[bindings[n].name];
    var after := Written(mid, d.local, ss);
    assert HasType(vs[b.column], ColTypes(cols)[b.column]);
    SlotsCount(vs[b.column], cols[b.column].ty);
    HoldsWritten(mid, d.local, ss);
    forall x | 0 <= x < |locals|
      ensures after[x] == locals[x] || exists y :: y in dests && InDest(dests[y], x)
    {
      assert after[x] == mid[x] || InDest(d, x);
    }
    hide HasType, FlatV, Written, Holds;
    forall k | 0 <= k < n + 1 && bindings[k].name in dests
      ensures SomeCopied(bindings, cols, n + 1, vs, after, bindings[k].name, dests[bindings[k].name].local)
    {
      var name := bindings[k].name;
      if name == b.name {
        assert Holds(after, d.local, FlatV(vs[bindings[n].column], cols[bindings[n].column].ty));
      } else {
        assert SomeCopied(bindings, cols, n, vs, mid, name, dests[name].local);
        OtherKept(bindings, cols, dests, types, n, vs, mid, ss, name);
      }
    }
  }

  lemma OtherKept(bindings: seq<LeafBinding>, cols: seq<Col>, dests: map<string, Col>, types: seq<ValType>, n: nat,
                  vs: seq<Value>, mid: seq<Slot>, ss: seq<Slot>, name: string)
    requires HaveTypes(vs, ColTypes(cols)) && InCols(bindings, cols) && n < |bindings| && DestsOk(dests, cols, types)
    requires forall k :: 0 <= k <= n && bindings[k].name in dests ==>
               dests[bindings[k].name].ty == cols[bindings[k].column].ty
    requires bindings[n].name in dests && name in dests && name != bindings[n].name
    requires |ss| == |CoreTypes(dests[bindings[n].name].ty)| && dests[bindings[n].name].local + |ss| <= |mid|
    requires SomeCopied(bindings, cols, n, vs, mid, name, dests[name].local)
    ensures SomeCopied(bindings, cols, n + 1, vs, Written(mid, dests[bindings[n].name].local, ss), name, dests[name].local)
  {
    hide FlatV, Written, Holds, Apart, CoreTypes;
    var k :| 0 <= k < n && bindings[k].name == name
      && Holds(mid, dests[name].local, FlatV(vs[bindings[k].column], cols[bindings[k].column].ty));
    assert HasType(vs[bindings[k].column], ColTypes(cols)[bindings[k].column]);
    hide HasType;
    ApartKept(dests[name], dests[bindings[n].name], vs[bindings[k].column], mid, ss);
  }

  /** The copies of a leaf put every variable's slots into its own locals. */
  lemma {:induction false} VarsRun(bindings: seq<LeafBinding>, cols: seq<Col>, dests: map<string, Col>,
                                   types: seq<ValType>, n: nat, vs: seq<Value>, st: State) returns (locals: seq<Slot>)
    requires Premises(types, cols, vs, st) && InCols(bindings, cols) && n <= |bindings| && DestsOk(dests, cols, types)
    requires forall k :: 0 <= k < |bindings| && bindings[k].name in dests ==>
               dests[bindings[k].name].ty == cols[bindings[k].column].ty
    ensures Exec(CopyVars(bindings, cols, dests, n), st) == Some(st.(locals := locals))
    ensures VarsCopied(bindings, cols, dests, n, vs, st.locals, locals)
    ensures TypedLocals(locals, types) && Laid(cols, vs, locals)
  {
    hide CopyOneVar, Exec, DestsOk, TypedLocals, Laid, HasType, VarsCopied, CopyVars;
    if n == 0 {
      locals := st.locals;
      NothingCopied(bindings, cols, dests, vs, st);
    } else {
      var b := bindings[n - 1];
      var mid := VarsRun(bindings, cols, dests, types, n - 1, vs, st);
      CopyVarsStep(bindings, cols, dests, n);
      ExecThen(CopyVars(bindings, cols, dests, n - 1), CopyOneVar(b, cols, dests), st, st.(locals := mid));
      if b.name in dests {
        locals := OneVarRuns(bindings, cols, dests, types, n - 1, vs, st, mid);
      } else {
        NoCopy(bindings, cols, dests, n - 1, vs, st, mid);
        locals := mid;
      }
    }
  }

  lemma CopyVarsStep(bindings: seq<LeafBinding>, cols: seq<Col>, dests: map<string, Col>, n: nat)
    requires InCols(bindings, cols) && 0 < n <= |bindings|
    ensures CopyVars(bindings, cols, dests, n)
         == CopyVars(bindings, cols, dests, n - 1) + CopyOneVar(bindings[n - 1], cols, dests)
  {
  }

  lemma NothingCopied(bindings: seq<LeafBinding>, cols: seq<Col>, dests: map<string, Col>, vs: seq<Value>, st: State)
    requires HaveTypes(vs, ColTypes(cols)) && InCols(bindings, cols)
    ensures Exec(CopyVars(bindings, cols, dests, 0), st) == Some(st)
    ensures VarsCopied(bindings, cols, dests, 0, vs, st.locals, st.locals)
  {
  }

  lemma NoCopy(bindings: seq<LeafBinding>, cols: seq<Col>, dests: map<string, Col>, n: nat, vs: seq<Value>, st: State,
               mid: seq<Slot>)
    requires HaveTypes(vs, ColTypes(cols)) && InCols(bindings, cols) && n < |bindings|
    requires bindings[n].name !in dests && VarsCopied(bindings, cols, dests, n, vs, st.locals, mid)
    ensures Exec(CopyOneVar(bindings[n], cols, dests), st.(locals := mid)) == Some(st.(locals := mid))
    ensures VarsCopied(bindings, cols, dests, n + 1, vs, st.locals, mid)
  {
    hide FlatV, Holds, HasType;
    forall k | 0 <= k < n + 1 && bindings[k].name in dests
      ensures SomeCopied(bindings, cols, n + 1, vs, mid, bindings[k].name, dests[bindings[k].name].local)
    {
      assert SomeCopied(bindings, cols, n, vs, mid, bindings[k].name, dests[bindings[k].name].local);
    }
  }

  lemma OneVarRuns(bindings: seq<LeafBinding>, cols: seq<Col>, dests: map<string, Col>, types: seq<ValType>, n: nat,
                   vs: seq<Value>, st: State, mid: seq<Slot>) returns (locals: seq<Slot>)
    requires HaveTypes(vs, ColTypes(cols)) && InCols(bindings, cols) && n < |bindings| && DestsOk(dests, cols, types)
    requires forall k :: 0 <= k < |bindings| && bindings[k].name in dests ==>
               dests[bindings[k].name].ty == cols[bindings[k].column].ty
    requires bindings[n].name in dests && VarsCopied(bindings, cols, dests, n, vs, st.locals, mid)
    requires TypedLocals(mid, types) && Laid(cols, vs, mid)
    ensures Exec(CopyOneVar(bindings[n], cols, dests), st.(locals := mid)) == Some(st.(locals := locals))
    ensures VarsCopied(bindings, cols, dests, n + 1, vs, st.locals, locals)
    ensures TypedLocals(locals, types) && Laid(cols, vs, locals)
  {
    hide Written, VarsCopied, TypedLocals, Exec, CopyCode, CoreTypes, FlatV, Apart, DestIn, Holds;
    var b, d := bindings[n], dests[bindings[n].name];
    var v, src := vs[b.column], cols[b.column];
    assert HasType(v, ColTypes(cols)[b.column]) && Holds(mid, src.local, FlatV(v, src.ty));
    hide HasType, Laid;
    VarCopied(src, d, v, types, st.(locals := mid));
    VarStep(bindings, cols, dests, types, n, vs, st.locals, mid, FlatV(v, src.ty));
    LaidApart(cols, vs, d, mid, FlatV(v, src.ty));
    locals := Written(mid, d.local, FlatV(v, src.ty));
  }

  lemma LetDecides(types: seq<ValType>, blocks: seq<BasicBlock>, bb: nat, p: nat, cols: seq<Col>, action: nat,
                   bindings: seq<LeafBinding>, last: nat, mode: Mode, n: nat)
    requires mode.InLet? && InCols(bindings, cols) && bb < |blocks| && p <= |blocks[bb].instructions|
    requires DestsOk(mode.dests, cols, types)
    requires forall k :: 0 <= k < |bindings| && bindings[k].name in mode.dests ==>
               mode.dests[bindings[k].name].ty == cols[bindings[k].column].ty
    requires blocks[bb].instructions[p..] == CopyVars(bindings, cols, mode.dests, |bindings|)
    requires blocks[bb].out == Next(last)
    ensures Decides(types, blocks, bb, p, cols, Leaf(action, bindings), last, mode, n)
  {
    hide CopyVars, Walk, Laid, TypedLocals, HasType, Resolve, DestsOk, VarsCopied, Exec;
    forall vs, st
      ensures DecidesOn(types, blocks, bb, p, cols, Leaf(action, bindings), last, mode, n, vs, st)
    {
      if Premises(types, cols, vs, st) {
        assert forall b :: b in bindings ==> b.column < |vs|;
        LeafOutcome(action, bindings, vs, ColTypes(cols));
        var locals := VarsRun(bindings, cols, mode.dests, types, |bindings|, vs, st);
        var st' := st.(locals := locals);
        RunOut(blocks, bb, p, st, st', last);
        CopiedEnds(bindings, cols, mode, n, vs, st, locals);
      }
    }
  }

  lemma CopiedEnds(bindings: seq<LeafBinding>, cols: seq<Col>, mode: Mode, n: nat, vs: seq<Value>, st: State,
                   locals: seq<Slot>)
    requires mode.InLet? && HaveTypes(vs, ColTypes(cols)) && InCols(bindings, cols)
    requires forall b :: b in bindings ==> b.column < |vs|
    requires VarsCopied(bindings, cols, mode.dests, |bindings|, vs, st.locals, locals)
    ensures Framed(st, st.(locals := locals), mode, n)
    ensures DestsHold(mode.dests, Resolve(bindings, vs, ColTypes(cols)), locals)
  {
    var bound := Resolve(bindings, vs, ColTypes(cols));
    hide FlatV, Holds;
    forall b | b in bound && b.name in mode.dests
      ensures exists b' :: b' in bound && b'.name == b.name && SlotsOf(b', locals, mode.dests[b.name].local)
    {
      var k :| 0 <= k < |bound| && bound[k] == b;
      assert SomeCopied(bindings, cols, |bindings|, vs, locals, bindings[k].name, mode.dests[bindings[k].name].local);
      var j :| 0 <= j < |bindings| && bindings[j].name == b.name
        && Holds(locals, mode.dests[b.name].local, FlatV(vs[bindings[j].column], cols[bindings[j].column].ty));
      assert HasType(vs[bindings[j].column], ColTypes(cols)[bindings[j].column]);
      assert bound[j] in bound;
    }
  }
}
